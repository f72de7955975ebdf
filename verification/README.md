# RunPilot: verified models of its protocols and registries

RunPilot runs jobs and plugins on one machine and shows them in a browser. This project models, in Dafny 4.11,
the parts of it that are protocols or bookkeeping, and proves what they are for:

- the tunnel that carries HTTP exchanges and WebSockets of published plugin pages over one byte stream
  (`FrameCodec`, `Upload`, `Download`, `HttpTunnel`, `HttpService`, `WebSocketTunnel`, `WebSocketReader`,
  `WebSocketOutbox`, `CookieJar`);
- the encrypted WebSocket channel (`SecureChannel`);
- the registries that belong to plugins: browser publications, gateways and tickets (`Publications`,
  `PublicationEffects`, `BrowserPaths`), network streams (`NetworkStreams`, `StreamRecords`, `StreamAttach`), ABI v2
  handles (`AbiHandles`), schedules (`ScheduleTable`);
- process output on its way to plugins and to capped logs, and what is kept of finished executions
  (`ProcessOutput`, `OutputLosses`, `Subsequences`, `CapturedOutput`, `ExecutionRetention`);
- catalog generation in semantic version order (`VersionOrder`, `Catalog`);
- the move of the data directory (`DataRoot`, `DataRootMoves`);
- cron schedules (`Calendar`, `CronFields`, `Cron`).

`Bytes` holds octets and big-endian numbers, `Options` and `Finite` a datatype and facts about sets. Check everything
with `dafny verify dfyconfig.toml`.

## How the models are made

A lock's critical section, a channel operation and a wake token are one atomic step each; a goroutine is the
sequence of its steps, and a run is any interleaving of the steps that are possible. Channels are sequences with a
bound, clocks are integers given from outside, random identifiers are any value not in use yet. Faults of files and
connections are parameters of the steps. Each module has a value that is the state, functions (or, where the code
may choose, relations) that say what a step does, and `Run` over a list of steps; theorems are about every state
that `Run` reaches. Where the code updates an object, a class has the same fields, and its methods are proved
against those functions. History fields, which record what happened so that it can be spoken of, are named as such.

Beside what no step may break there is what each operation achieves: for every reachable state exactly when it
succeeds and what is then where (`HttpService`, `PublicationEffects`, `StreamRecords`, `OutputLosses`,
`DataRootMoves`, and lemmas of this kind in the other modules), told without the functions that the methods are
proved against.

## What turned out

- **Small upload chunks.** A peer that spends only granted upload credit is never told "upload window exceeded", but
  six one-octet chunks in a row overflow the five slots and close the gateway (`Upload.SmallChunksOverflow`). With at
  most five chunks that no credit frame has answered none is ever refused, with seven one always is, and with six it
  depends on whether the forwarder holds one of them (`Upload.FiveUnansweredFit`); chunks that fill their frames
  always fit.
- **Cookie accounting.** Replacing a cookie adds its new size without taking off the old one. So the counter is an
  upper bound; the jar stays within its limits, but one cookie set again and again fills it
  (`CookieJar.OneCookieOverflows`, `CookieJar.RefusedIff`).
- **Version order.** On versions `versionBefore` is a strict total order. On any set of strings it is transitive
  exactly if no string that is no version lies, as a string, between two versions that precedence puts the other way
  round (`VersionOrder.TransitiveIff`, `VersionOrder.MixedStringsCycle`). Generation validates before it compares, so
  this does no harm there.
- **Cron steps.** A step within 59 of the largest 64-bit integer makes the loop's addition wrap around, and the field
  then selects other values (`CronFields.WrappedExample`, from the text of a field); all other fields are exact
  (`CronFields.FieldDenotes`).
- **Cron limit.** When nothing matches within a year, `next` returns the limit, and the job is run there, on a date it
  does not select: for the accepted `0 0 30 2 *` on New Year of 2023 (`Cron.ImpossibleFires`). This never happens
  exactly for schedules that fire in every year (`Cron.AlwaysOnTime`).
- **Cut frames.** A connection that breaks off exactly between a frame's header and its payload reads as a clean end of
  the stream (`FrameCodec.CutShort`); no wrong frame is ever handed on.
- **Abandoned output.** When the wait gives up on the goroutine that copies a captured process's output, a write that
  it has made but not announced is never announced. The size published last is then the size of the file exactly if
  that write was empty, or came after the log was full and marked, and was not the first one
  (`CapturedOutput.AbandonedWriteIsNotAnnounced`).
- **Retention.** `FinishExecution` may delete the very execution that it finishes, if 200 finished ones of its subject
  started later (`ExecutionRetention.FoundAfterFinishIff`, and `FinishedAndGone` for such a table).
- **Attached after a stop.** A stream whose plugin stops between the two critical sections of `attach` is still handed
  out, with its connection closed (`StreamAttach.HandedDead`, `StreamAttach.HandedAliveIff`).
- **Schedule keys.** Owners whose names hold a NUL could get into each other's schedules; exactly when is
  `ScheduleTable.OwnersCollideIff`. Plugin ids hold none, and then all is exact (`PlainOwnersAreApart`).
- The comment on `CopyDataRoot` speaks of a "new or empty" directory; the code wants one that does not exist, and so
  does the model. The duplicate check at internal/httpgateway/gateway.go:355 and the refusal at
  internal/core/plugin_network_streams.go:173-177 cannot be reached.

## Model

| member | source | states |
|---|---|---|
| FrameCodec.HeaderFields | internal/httpgateway/protocol.go:64-68 | The ten header octets read back to the version, type, identifier and length that were put in. |
| FrameCodec.RoundTrip | internal/httpgateway/protocol.go:46-82 | A frame with a non-zero identifier and at most 16 KiB, followed by anything, is read back, and nothing of what follows is touched. |
| FrameCodec.DecodeConsumes | internal/httpgateway/protocol.go:46-59 | A frame that is read is a valid one, and its encoding is exactly what was taken from the stream: decoding inverts encoding in the other direction. |
| FrameCodec.CutShort | internal/httpgateway/protocol.go:46-59 | A frame cut anywhere is never read as a frame; it is reported as a clean end of stream in exactly two cases, when nothing arrived or the cut is between header and payload. |
| FrameCodec.StreamRoundTrip | internal/httpgateway/protocol.go:46-82 | Repeated reading of any list of valid frames gives exactly that list and then the end of the stream. |
| FrameCodec.CutStream | internal/httpgateway/protocol.go:46-82 | A stream cut at any octet gives a prefix of the frames and never a wrong one. |
| FrameCodec.EncodingInjective | internal/httpgateway/protocol.go:60-82 | Different lists of frames never look the same on the wire. |
| FrameCodec.OnlyValidFrames | internal/httpgateway/protocol.go:53-55 | From any octets whatever, reading never yields identifier 0 or more than 16 KiB. |
| FrameCodec.Source.ReadFull | internal/httpgateway/protocol.go:48-57 | However short the reads are, the loop gets the wanted octets or tells at which kind of end it stopped, and leaves the rest. |
| FrameCodec.ReadFrame | internal/httpgateway/protocol.go:46-59 | Over any pattern of short reads the method gives what decoding the whole stream at once gives. |
| FrameCodec.WriteAll | internal/httpgateway/protocol.go:69-80 | Over any pattern of short writes the octets arrive in order; on failure exactly a prefix has. |
| FrameCodec.WriteFrame | internal/httpgateway/protocol.go:60-82 | An invalid frame writes nothing; a valid one adds its encoding to the stream or, on failure, a prefix of it. |
| Upload.RunInv | internal/httpgateway/gateway.go:384-451 | The upload half keeps its chunk, order, window and credit invariants in every interleaving. |
| Upload.Conservation | internal/httpgateway/gateway.go:353-451 | While the forwarder runs, free window, queued octets and the chunk in hand always add up to the window; they never exceed it. |
| Upload.InOrder | internal/httpgateway/gateway.go:387-405 | What upstream got is always a prefix of what was admitted, and all of it when the forwarder ended at the end mark. |
| Upload.GrantedCreditSuffices | internal/httpgateway/gateway.go:420-430 | A chunk within the credit granted so far always passes the window check. |
| Upload.FullChunksFit | internal/httpgateway/gateway.go:431-451 | If all chunks but the last are full, the five slots never overflow, even with the end mark queued. |
| Upload.SmallChunksOverflow | internal/httpgateway/gateway.go:431-435 | Six one-octet chunks, all within granted credit, do overflow them: the counterexample to the same claim for small chunks. |
| Upload.SixMayFit | internal/httpgateway/gateway.go:387-395 | And a run in which the sixth unanswered chunk fits. |
| Upload.FiveUnansweredFit | internal/httpgateway/gateway.go:387-451 | In what the peer can count: at most five chunks without an answering credit frame are never refused, seven always, six exactly if the forwarder has taken none of them. |
| Upload.Drains | internal/httpgateway/gateway.go:387-406 | Whatever came before, the forwarder can pass on any number of waiting chunks: upstream gets their octets in order, and window and peer as many back, one credit frame for each. |
| Upload.DrainsAll | internal/httpgateway/gateway.go:387-406 | So an upload that has not ended can always get to where upstream has every accepted octet and the peer the whole window again. |
| Upload.FailsAfter | internal/httpgateway/gateway.go:396-398 | A write that fails after some octets has passed on exactly those, and the forwarder never takes another chunk. |
| Upload.EndMarkEnds | internal/httpgateway/gateway.go:392-395 | The end mark, when it is next in the channel, ends the forwarder with everything passed on. |
| Download.RunInv | internal/httpgateway/gateway.go:458-559 | The download half keeps its credit, body, wakeup and answer invariants in every interleaving. |
| Download.FlowControl | internal/httpgateway/gateway.go:462-469 | Credit is within 0 and the window at all times, and the octets sent never exceed the credit granted. |
| Download.FaithfulBody | internal/httpgateway/gateway.go:541-549 | The body frames carry exactly the octets read from upstream, in order, up to the ones in hand. |
| Download.NoLostWakeup | internal/httpgateway/gateway.go:470-473 | If the executor is parked and there is credit, a wake token is there or is the granting step's next action, and taking it leads to a read. |
| Download.AnswerShape | internal/httpgateway/gateway.go:519-557 | The answer is a prefix of Start Body* (End or Error), or a lone Error, with frames of legal size. |
| Download.TellsWhatWasHeard | internal/httpgateway/gateway.go:488-557 | The answer is an exact transcript: one frame for each thing heard of upstream, in order, head, pieces and a clean or unclean end; nothing is missing in one that has come to its last frame. |
| Download.Begins | internal/httpgateway/gateway.go:488-522 | A call that fails is the whole answer with its error; one that succeeds begins it with its metadata. |
| Download.PassesOn | internal/httpgateway/gateway.go:524-549 | With credit the executor reads up to that and a frame, one piece becomes one body frame, the credit falls by its length, and it goes on or ends as upstream did. |
| Download.Ends | internal/httpgateway/gateway.go:550-557 | A clean end of the body is told by ResponseEnd and any other by ResponseError, and then the exchange is over. |
| Download.WakesOrQuits | internal/httpgateway/gateway.go:534-538 | A parked executor with a token goes on and uses it up; where it waits or cannot write it may give up, and no frame follows. |
| HttpTunnel.RunInv | internal/httpgateway/gateway.go:312-559 | The whole gateway, all exchanges interleaved with the reader, keeps the table, both halves of each exchange and the wire consistent. |
| HttpTunnel.ExchangeDiscipline | internal/httpgateway/gateway.go:317-363 | Identifiers start at most one exchange each, in increasing order; at most 16 are live, all at most the last one. |
| HttpTunnel.AnswersWellFormed | internal/httpgateway/gateway.go:479-559 | Picked out of the one shared wire, the frames of each identifier have the shape of an answer. |
| HttpTunnel.UploadConserved | internal/httpgateway/gateway.go:384-451 | Conservation of the upload window holds for every exchange of every run of the gateway, with the credit seen on the wire. |
| HttpTunnel.DownloadBounded | internal/httpgateway/gateway.go:458-549 | Body octets on the wire never exceed the download credit received for that exchange. |
| HttpTunnel.WakeupArrives | internal/httpgateway/gateway.go:470-538 | In the gateway too, a parked executor with credit can wake at once or right after the reader's next step. |
| HttpTunnel.CreditHonoured | internal/httpgateway/gateway.go:420-430 | A peer that has sent no more than the credit frames on its wire allow never hears "upload window exceeded". |
| HttpTunnel.FullChunksNeverRefused | internal/httpgateway/gateway.go:431-451 | A peer that fills its frames never has a chunk or end mark refused for want of room. |
| HttpTunnel.FiveUnansweredNeverRefused | internal/httpgateway/gateway.go:387-451 | Counted on the shared wire: with at most five chunks or marks that no credit frame has answered, none is refused for want of room. |
| HttpTunnel.LateFrames | internal/httpgateway/gateway.go:413-418 | Late body, end, cancel and credit frames of finished exchanges change nothing at all; every other frame about one closes the gateway. |
| HttpTunnel.NothingAfterRemoval | internal/httpgateway/gateway.go:480-487 | Once an exchange has left the table nothing more of its answer ever appears on the wire. |
| HttpTunnel.DuplicateUnreachable | internal/httpgateway/gateway.go:355-361 | A fresh identifier is refused for the size of the table alone: the duplicate half of the check never holds. |
| HttpTunnel.Server.Accept | internal/httpgateway/gateway.go:312-478 | The method on the gateway's fields takes the decision, and leaves the state, that the step machine prescribes. |
| HttpTunnel.Server.AcceptStart | internal/httpgateway/gateway.go:316-363 | The same for the start of an exchange: the identifier is used up even if the request is refused. |
| HttpTunnel.Server.AcceptBody | internal/httpgateway/gateway.go:420-430 | The same for a body chunk. |
| HttpTunnel.Server.AcceptEnd | internal/httpgateway/gateway.go:436-446 | The same for the end mark. |
| HttpTunnel.Server.AcceptCredit | internal/httpgateway/gateway.go:458-469 | The same for download credit. |
| HttpService.StartServed | internal/httpgateway/gateway.go:316-409 | A Start is served exactly if its metadata is acceptable, its identifier is above all that began an exchange, and fewer than 16 are live: then there is one fresh exchange more, and the peer is told the whole upload window. Otherwise the connection is over and every exchange cancelled. |
| HttpService.CancelMarks | internal/httpgateway/gateway.go:452-457 | An empty Cancel marks exactly its own exchange, whose goroutines may then give up where they wait; one with data ends the connection. |
| HttpService.CreditGranted | internal/httpgateway/gateway.go:458-473 | Download credit is taken exactly if it is from 1 to what the window has left; then it is all there, with a token in the wake channel, and nothing else has changed. |
| HttpService.BodyTaken | internal/httpgateway/gateway.go:420-435 | A body chunk is taken exactly if it is not empty, comes before the end, fits the window and finds a slot; it is then last in the channel and the window smaller by its length. |
| HttpService.EndTaken | internal/httpgateway/gateway.go:436-451 | An End is taken exactly if it is empty, the first and finds a slot; the window is left alone. |
| HttpService.OtherFrames | internal/httpgateway/gateway.go:312-315 | Frames of WebSockets change nothing here; late frames of identifiers passed over change nothing; any other kind of frame ends the connection. |
| HttpService.GoroutinesApart | internal/httpgateway/gateway.go:384-410 | Forwarder and executor of one exchange leave all others alone; the last step of the executor alone takes the exchange out of the table and cancels it. |
| HttpService.Disconnected | internal/httpgateway/gateway.go:170-214 | When the connection fails every exchange is cancelled, and whoever waits or has something to send may give up. |
| HttpService.ClosedForGood | internal/httpgateway/gateway.go:191-214 | After its end the gateway starts and sends nothing more, in every continuation; exchanges only leave the table. |
| WebSocketTunnel.Receiver.AcceptChunk | internal/httpgateway/websocket.go:130-158 | The assembler's in-place update equals the assembly function, with its four errors and the 1 MiB limit. |
| WebSocketTunnel.AssembleIff | internal/httpgateway/websocket.go:130-158 | Exactly which chunks are invalid, which cost the socket its life for length, and which complete a message, and what is put together. |
| WebSocketTunnel.CoveredIsReassembled | internal/httpgateway/websocket.go:130-158 | The fragments of one message, however cut, are reassembled into that message, and the assembler is empty again. |
| WebSocketTunnel.RoundTrip | internal/httpgateway/websocket.go:130-158 | For every sequence of messages of at most 1 MiB, empty ones included, and every way of cutting them, the assembler returns the same kinds and octets. |
| WebSocketReader.RunInv | internal/httpgateway/websocket.go:181-324 | Reader and accepting goroutine, in any interleaving, keep place, credit, wakeup and what is on the wire. |
| WebSocketReader.FlowControl | internal/httpgateway/websocket.go:186-191 | Credit is within 0 and the window at all times, and the octets sent never exceed the credit granted. |
| WebSocketReader.RoundTrip | internal/httpgateway/websocket.go:249-324 | What the assembler makes of the frames on the wire is always a prefix of the messages read from upstream, and all of them, with nothing half received, when the reader is idle; all frames are legal. |
| WebSocketReader.NoLostWakeup | internal/httpgateway/websocket.go:193-196 | A parked reader with credit finds a wake token at once or after the granting step's next action, and then takes credit. |
| WebSocketReader.OwnMeasure | internal/httpgateway/websocket.go:286-322 | Every step of the splitting loop puts octets on the wire, uses up a token or reaches a later stage: it ends. |
| WebSocketReader.MessageEnds | internal/httpgateway/websocket.go:286-322 | A message under way ends up wholly on the wire exactly if the credit at hand suffices; otherwise the reader is parked, all credit ever granted is used and no token is left. |
| WebSocketReader.GivenUp | internal/httpgateway/websocket.go:249-320 | Where it waits, receives or sends the reader may give up; from then on nothing more is read or sent. |
| WebSocketReader.Socket.Grant | internal/httpgateway/websocket.go:185-192 | The credit is added and the wake offer due, or the grant is refused exactly if it would pass the window. |
| WebSocketReader.Socket.Wake | internal/httpgateway/websocket.go:193-196 | The offer leaves a token in the channel, whether or not there was one. |
| WebSocketReader.Socket.TakeCredit | internal/httpgateway/websocket.go:292-300 | The critical section takes what there is, up to the wanted amount, or leads to the wait. |
| WebSocketReader.Socket.AwaitCredit | internal/httpgateway/websocket.go:291-310 | The inner loop is a run of the machine; it parks, is woken only by a token, and gives up only if the peer has finished. |
| WebSocketReader.Socket.SendMessage | internal/httpgateway/websocket.go:280-322 | The work for one message is a run of the machine and leaves it wholly on the wire, or the reader parked with every granted octet used unless an offer is still due. |
| WebSocketOutbox.RunInv | internal/httpgateway/websocket.go:155-247 | The accounting and the order of the outgoing queue are kept in every interleaving of reader and writer. |
| WebSocketOutbox.Accounting | internal/httpgateway/websocket.go:159-240 | The counter equals what is really queued, counted or being written; that never exceeds 1 MiB; upstream gets messages in order. |
| WebSocketOutbox.ExcessIff | internal/httpgateway/websocket.go:159-163 | The octet verdict, taken when a message is counted, is that it does not fit with what is queued and being written. |
| WebSocketOutbox.RemovedIff | internal/httpgateway/websocket.go:163-179 | When it is offered, the socket is dropped exactly if that verdict was against it or four messages wait. |
| WebSocketOutbox.RefusedIff | internal/httpgateway/websocket.go:159-179 | With any steps of the writer in between, a message is refused exactly by octets at the count or by slots at the offer. |
| WebSocketOutbox.QueuesLast | internal/httpgateway/websocket.go:159-179 | A message that fits by octets and slots is the last in the channel, and counted. |
| WebSocketOutbox.WritesFirst | internal/httpgateway/websocket.go:227-247 | The writer can write the first message, which is then counted no more; if that fails it stops. |
| WebSocketOutbox.StoppedForGood | internal/httpgateway/websocket.go:227-247 | A writer that stopped never writes anything again. |
| CookieJar.RunInv | internal/httpgateway/cookies.go:35-82 | Over every run of responses the counter is the true total plus the sizes of replaced records. |
| CookieJar.Bounded | internal/httpgateway/cookies.go:69-78 | At most 128 records of truly at most 64 KiB are kept, and the counter is an upper bound of that. |
| CookieJar.RefusedIff | internal/httpgateway/cookies.go:61-72 | A cookie is refused exactly if it, the other records and all replaced sizes pass 64 KiB, or a new one finds 128 records. |
| CookieJar.LastCookieDecides | internal/httpgateway/cookies.go:35-82 | Of each name in a domain and path, the last cookie that was not refused decides: deleted, or kept with its size and expiry; without one what was kept stays unless it has expired. The jar has overflowed exactly if a cookie was ever refused. |
| CookieJar.OneCookieOverflows | internal/httpgateway/cookies.go:77-78 | One cookie set n times is counted n times while the jar holds it once, until it overflows. |
| CookieJar.BoundedJar.DropExpired | internal/httpgateway/cookies.go:38-44 | The loop over the records removes exactly the expired ones and their sizes. |
| CookieJar.BoundedJar.SetCookie | internal/httpgateway/cookies.go:46-79 | One cookie of a response has the prescribed effect and is passed on exactly if it is not refused. |
| CookieJar.BoundedJar.SetCookies | internal/httpgateway/cookies.go:35-82 | The method has the effect of the specification and passes on exactly the accepted cookies. |
| SecureChannel.XorInjective | internal/websocketsecure/session.go:249-253 | Exclusive or with a fixed number tells numbers apart. |
| SecureChannel.NonceInjective | internal/websocketsecure/session.go:249-253 | Different sequence numbers below 2^64 give different nonces from the same base. |
| SecureChannel.NonceMixes | internal/websocketsecure/session.go:249-253 | A nonce starts as its base does, and its last eight octets differ from the base by exactly the sequence number. |
| SecureChannel.HeaderInjective | internal/websocketsecure/session.go:177-181 | The authenticated header determines kind and sequence number. |
| SecureChannel.AcceptedIff | internal/websocketsecure/session.go:187-216 | Of everything a network can present, an end accepts exactly the next envelope of its peer, with a text or binary kind. |
| SecureChannel.RunInv | internal/websocketsecure/session.go:145-216 | A session under a network that drops, repeats, reorders and forges keeps its invariant. |
| SecureChannel.PrefixAndNonces | internal/websocketsecure/session.go:145-253 | What an end has read is a prefix of what the other wrote, kinds and octets; no key ever sees a nonce twice; the sequence number never wraps. |
| SecureChannel.FaithfulDelivery | internal/websocketsecure/session.go:145-216 | In both directions the next envelope, if delivered, is accepted: safety is not bought by refusing everything. |
| SecureChannel.EndsMirror | internal/websocketsecure/session.go:218-239 | The keys and nonces of the two ends mirror each other, and are the derived octets in the order client key, server key, client nonce, server nonce. |
| SecureChannel.HelloRoundTrip | internal/websocketsecure/session.go:255-283 | A hello of either role is read back as its public key and random octets, and is not taken for one of the other role. |
| SecureChannel.ServerHelloIsOne | internal/websocketsecure/session.go:274-283 | What is accepted as a server hello is the encoding of one. |
| SecureChannel.HandshakeAgrees | internal/websocketsecure/session.go:74-143 | An undisturbed handshake succeeds and leaves both ends with mirrored keys and nonces, given that the shared secrets agree. |
| SecureChannel.FallbackKeepsFrames | internal/websocketsecure/session.go:74-114 | Told from the octets of the first frame: when encryption starts, when it is refused, when the connection stays clear; a fallback loses no frame, and a required handshake never falls back. |
| SecureChannel.Conn.Write | internal/websocketsecure/session.go:169-185 | Writing emits the prescribed envelope and advances the sequence number, or refuses at its end. |
| SecureChannel.Conn.Read | internal/websocketsecure/session.go:154-216 | Reading gives what opening gives, and advances the number only on success. |
| SecureChannel.Conn.ReadPlain | internal/websocketsecure/session.go:146-152 | On a clear connection the pending frame comes first, once. |
| Publications.RunInv | internal/core/browser_publication.go:71-353 | All operations, expiries and stops keep the registry's links, paths, limits and identifiers. |
| Publications.Integrity | internal/core/browser_publication.go:71-353 | Every gateway's mount exists with the same owner, every ticket names a live gateway of its owner, mounts on a runtime are on the current one and its owner's; 8/64 gateways, 256 mounts, 256 tickets. |
| Publications.UniqueRoute | internal/core/browser_publication.go:140-144 | Any request path belongs to at most one mount in every reachable state, so the lookup does not depend on map order. |
| Publications.TicketOnce | internal/core/browser_publication.go:300-307 | After a ticket was presented, whatever came of it, every later use in any continuation is denied. |
| Publications.AttachOnce | internal/core/browser_publication.go:308-328 | A gateway is attached at most once, and no ticket grants it afterwards. |
| Publications.GrantAttaches | internal/core/browser_publication.go:300-328 | What a ticket grants can be attached at once by the owner it names. |
| Publications.StopRemovesAll | internal/core/browser_publication.go:329-353 | After a stop nothing of that owner is left: no mount, gateway, ticket or runtime; nothing at all after shutdown. |
| Publications.SpentForGood | internal/core/browser_publication.go:300-307 | An identifier that was issued and is no ticket any more never becomes one again. |
| Publications.TakenForGood | internal/core/browser_publication.go:308-315 | A gateway that is attached or gone never becomes free again. |
| PublicationEffects.MountRegistered | internal/core/browser_publication.go:123-154 | A mount is registered exactly if the host is up, the request in order, its runtime the current one of the owner, no request path served already, and there is room; it is then the only thing new. |
| PublicationEffects.MountRemoved | internal/core/browser_publication.go:155-173 | The owner removes a mount together with the gateways on it and their tickets, and nothing else; its path can then be registered again. Others are refused and change nothing. |
| PublicationEffects.NothingToRemove | internal/core/browser_publication.go:155-173 | Removing a mount that is not there succeeds and changes nothing. |
| PublicationEffects.RuntimeRegistered | internal/core/browser_publication.go:81-100 | A runtime is registered exactly while there is none; the same request finds the same one again, any other is told that there is one. |
| PublicationEffects.RuntimeRemoved | internal/core/browser_publication.go:101-122 | Its owner removes a runtime with the mounts that use it, their gateways and tickets, and nothing else; then any plugin may register one. |
| PublicationEffects.GatewayOpened | internal/core/browser_publication.go:174-239 | A gateway is opened exactly if the mount is the owner's, the owner has fewer than 8 and the host fewer than 64; it is free and the only thing new. |
| PublicationEffects.GatewayClosed | internal/core/browser_publication.go:240-253 | Exactly the owner closes a gateway, with its tickets and nothing else; closing one that is gone succeeds. |
| PublicationEffects.GatewayRetired | internal/core/browser_publication.go:222-238 | The timer takes a gateway exactly if no stream is attached, the end of its server in any case, with its tickets and nothing else. |
| PublicationEffects.GatewayAttached | internal/core/browser_publication.go:308-328 | A stream is attached exactly by the owner to a free gateway; that mark is all that changes. |
| PublicationEffects.OwnerStopped | internal/core/browser_publication.go:329-353 | A stop takes the owner's mounts and gateways with their tickets, and leaves those of others as they are. |
| PublicationEffects.TicketIssued | internal/core/browser_publication.go:254-278 | A ticket is issued exactly if the gateway is the owner's and free and fewer than 256 tickets have not expired; expired ones are dropped, the others stay as they are. |
| PublicationEffects.TicketWorth | internal/core/browser_publication.go:254-307 | After any operations that neither present it nor drop expired tickets past its minute, a ticket grants its gateway to its owner exactly if presented within the minute while the gateway is there and free. |
| PublicationEffects.TicketPresented | internal/core/browser_publication.go:300-307 | Presenting a ticket takes that ticket and nothing else. |
| Publications.Host.CloseLocked | internal/core/browser_publication.go:285-299 | The loop removes exactly the gateway and the tickets that name it. |
| Publications.Host.RuntimeRegister | internal/core/browser_publication.go:81-100 | The method has the effect and reply of the specification. |
| Publications.Host.RuntimeRemove | internal/core/browser_publication.go:101-122 | The same: gateways and mounts on the runtime go with it. |
| Publications.Host.PublicationRegister | internal/core/browser_publication.go:123-154 | The same, the loop over the mounts finding any overlap. |
| Publications.Host.PublicationRemove | internal/core/browser_publication.go:155-173 | The same: the mount's gateways are closed first. |
| Publications.Host.GatewayOpen | internal/core/browser_publication.go:174-239 | The same, with the owner's gateways counted by a loop. |
| Publications.Host.GatewayClose | internal/core/browser_publication.go:240-253 | The same. |
| Publications.Host.StreamTicket | internal/core/browser_publication.go:254-278 | The same: expired tickets are dropped before the limit is looked at. |
| Publications.Host.ConsumeTicket | internal/core/browser_publication.go:300-307 | The same: the ticket is gone whatever the answer. |
| Publications.Host.AttachStream | internal/core/browser_publication.go:308-328 | The same. |
| Publications.Host.StopOwner | internal/core/browser_publication.go:329-353 | The same, in two loops. |
| Publications.Host.Lookup | internal/core/browser_publication.go:369-378 | The loop finds the mount of a path if and only if there is one, whatever the order. |
| BrowserPaths.OverlapIffShared | internal/browserpath/path.go:62-64 | Two mounts overlap exactly if some request path belongs to both. |
| BrowserPaths.JoinUnder | internal/browserpath/path.go:65 | A base path counts without its last slash, and a root base adds nothing. |
| BrowserPaths.JoinKeepsApart | internal/browserpath/path.go:62-65 | Joining to a base path neither creates nor removes an overlap. |
| NetworkStreams.LimitsHold | internal/core/plugin_network_streams.go:149-180 | In every reachable state: at most 8 open streams per owner, 64 open, 32 records per owner, 256 records. |
| NetworkStreams.ClosedNeverBlock | internal/core/plugin_network_streams.go:167-177 | An open is never refused for records: room is made from closed ones, and the last refusal is unreachable. |
| NetworkStreams.AttachedOnce | internal/core/plugin_network_streams.go:386-399 | In any run a stream is attached at most once: later attaches fail unless a new stream was opened under the identifier. |
| StreamRecords.OpenedIsThere | internal/core/plugin_network_streams.go:143-181 | An open that is let in adds exactly one record, open and not attached; every other record there was there before, unchanged and not out of date. |
| StreamRecords.GoneOnlyIf | internal/core/plugin_network_streams.go:143-427 | Exactly what takes a record out of the table: its age once closed, a crowded table if it is closed, the stop of its plugin, or the shutdown. |
| StreamRecords.RoomTakesOldest | internal/core/plugin_network_streams.go:201-214 | The records that make room are closed, and none of them is younger than a closed one of the same owner that stays. |
| StreamRecords.ChangedOnlyBy | internal/core/plugin_network_streams.go:364-399 | What may change in a record that stays: its first close, and its one attachment. |
| StreamRecords.FirstCloseStays | internal/core/plugin_network_streams.go:364-380 | State and time of the first close never change while the record is listed. |
| StreamRecords.AttachesIff | internal/core/plugin_network_streams.go:386-399 | An attach succeeds exactly for the owner of an open stream that nothing is attached to. |
| StreamRecords.StopFrees | internal/core/plugin_network_streams.go:414-427 | When a plugin stops exactly its records go, and none of them counts any more. |
| StreamAttach.HandedOnce | internal/core/plugin_network_streams.go:386-399 | The same with the lock released between finding and marking, for any number of callers at once. |
| StreamAttach.HandedWhen | internal/core/plugin_network_streams.go:386-399 | A caller that marks what it found is given the connection exactly if the stream is open and nobody was given it before. |
| StreamAttach.FoundAndHanded | internal/core/plugin_network_streams.go:216-224 | Exactly the owner finds the record while it is listed, and with nobody in between is given a live connection. |
| StreamAttach.ClosedStays | internal/core/plugin_network_streams.go:364-380 | A closed stream is never handed out, its connection is dead and its state stays. |
| StreamAttach.GoneStays | internal/core/plugin_network_streams.go:414-427 | A record that has left the table is never found again. |
| StreamAttach.HandedAliveIff | internal/core/plugin_network_streams.go:386-427 | What is handed out is a live connection exactly if the record is still in the table. |
| StreamAttach.HandedDead | internal/core/plugin_network_streams.go:386-427 | A run in which it is not. |
| NetworkStreams.AdmissionSafe | internal/core/plugin_network_streams.go:143-181 | Admission keeps the limits and leaves every open stream as it was. |
| NetworkStreams.EvictionMakesRoom | internal/core/plugin_network_streams.go:201-214 | Eviction removes exactly one record, an oldest closed one, of that owner if one is given. |
| NetworkStreams.RunInv | internal/core/plugin_network_streams.go:143-427 | Opening, closing, attaching, expiry, stop and shutdown keep the limits. |
| NetworkStreams.Manager.Prune | internal/core/plugin_network_streams.go:183-189 | The loop removes exactly the closed records past their retention. |
| NetworkStreams.Manager.CountRecords | internal/core/plugin_network_streams.go:150-161 | The loop counts open streams, those of the owner, and the owner's records. |
| NetworkStreams.Manager.EvictOldest | internal/core/plugin_network_streams.go:201-214 | The loop's running minimum is an oldest eligible record; without one nothing is removed. |
| NetworkStreams.Manager.Open | internal/core/plugin_network_streams.go:143-181 | The method is one of the admissions that the relation allows. |
| NetworkStreams.Manager.Mark | internal/core/plugin_network_streams.go:364-380 | A stream is closed once; the time of the first close stays. |
| NetworkStreams.Manager.TryAttach | internal/core/plugin_network_streams.go:386-399 | Both critical sections with nobody in between: attaching succeeds exactly for the owner's open stream that is not attached yet. |
| NetworkStreams.Manager.StopFor | internal/core/plugin_network_streams.go:414-427 | The loop removes exactly the owner's records. |
| AbiHandles.HandlesIncrease | internal/plugins/abi_v2.go:38-58 | Over any run handles are non-zero, strictly increasing 32-bit numbers, never shared by invocations and responses; each response belongs to a live invocation. |
| AbiHandles.NeverReused | internal/plugins/abi_v2.go:38-58 | A handle that was given out and is gone never comes back. |
| AbiHandles.AcceptedIff | internal/plugins/abi_v2.go:38-134 | After any calls, exactly which succeed: within 16 MiB, until 2^32 - 1 handles were given out, for live invocations, and one output each. |
| AbiHandles.ResponseReadsBack | internal/plugins/abi_v2.go:100-124 | The payload given to a call is what its handle reads back, to its own invocation alone, until it is dropped. |
| AbiHandles.InputReadsBack | internal/plugins/abi_v2.go:46-67 | The input given to a new invocation is what it reads as long as it lives; it starts without output. |
| AbiHandles.OutputReadsBack | internal/plugins/abi_v2.go:68-89 | An accepted output is what is read from then on, and the only one accepted. |
| AbiHandles.OutputIs | internal/plugins/abi_v2.go:68-89 | Told from the calls alone: an invocation yields the first output within the limit, unless it was removed. |
| AbiHandles.ResponseKept | internal/plugins/abi_v2.go:100-134 | Until it is dropped or its invocation removed, a response reads back exactly its own payload under its own invocation. |
| AbiHandles.OutputOnce | internal/plugins/abi_v2.go:68-89 | Once output was accepted, all further output of that invocation is refused and the first one is what is read. |
| AbiHandles.InputKept | internal/plugins/abi_v2.go:46-67 | An invocation reads back its own input as long as it lives. |
| AbiHandles.NoTraceForGood | internal/plugins/abi_v2.go:90-99 | After removal a handle names nothing, now and in every continuation. |
| AbiHandles.RemoveLeavesNoTrace | internal/plugins/abi_v2.go:258-262 | Whatever the guest did in between, removing the invocation leaves neither it nor any response of it. |
| AbiHandles.State.Create | internal/plugins/abi_v2.go:46-58 | The buffer is copied: the state is as specified whatever happens to the caller's array later. |
| AbiHandles.State.Input | internal/plugins/abi_v2.go:59-67 | A fresh copy of the input, or nothing for an unknown handle. |
| AbiHandles.State.WriteOutput | internal/plugins/abi_v2.go:68-80 | The first output within the limit is kept as a copy; later ones are refused. |
| AbiHandles.State.Remove | internal/plugins/abi_v2.go:90-99 | The loop removes the invocation and exactly its responses. |
| AbiHandles.State.Respond | internal/plugins/abi_v2.go:100-115 | A response gets the next handle and a copy of its payload. |
| AbiHandles.State.ReadResponse | internal/plugins/abi_v2.go:116-124 | A fresh copy of the payload, only under the right invocation. |
| AbiHandles.State.DropResponse | internal/plugins/abi_v2.go:125-134 | The response goes exactly if it belongs to that invocation. |
| AbiHandles.State.Invoke | internal/plugins/abi_v2.go:248-280 | For any calls of the guest, and on traps, the invocation's handle and all its responses are gone afterwards; the reply is the first output within the limit that the calls wrote, exactly if there was no trap, the invocation was not removed, and the output is JSON. |
| ProcessOutput.RunInv | internal/core/plugin_processes.go:185-264 | Readers, forwarders, waiters and the worker, in any interleaving, keep the invariant. |
| ProcessOutput.ExitIsLast | internal/core/plugin_processes.go:194-220 | The exit event is emitted exactly once per finished process and after all its output; every chunk was emitted or counted as discarded. |
| ProcessOutput.WorkerOrder | internal/core/controller.go:225-275 | The worker runs, of each stream, an in-order subsequence of what was read, nothing of a process after its exit, and that at most once. |
| ProcessOutput.NothingMissing | internal/core/plugin_processes.go:238-264 | Where nothing was discarded and no event lost, the worker runs everything that was read, and the exit. |
| OutputLosses.ReadKeptIff | internal/core/plugin_processes.go:238-264 | A chunk that is read is the last in the channel, or counted as discarded exactly if that has eight already. |
| OutputLosses.DeliveredIff | internal/core/controller.go:225-247 | An event goes to the end of the queue unless that holds 256; then it is lost and counted, and if it is no output only after the wait timed out. |
| OutputLosses.QueuedOtherwise | internal/core/controller.go:225-275 | No other step touches the queue, except the worker, which takes the first event and runs it. |
| OutputLosses.ShortOutputIsSafe | internal/core/plugin_processes.go:238-264 | Of a stream with at most eight chunks none is ever discarded, and of 256 events none is lost. |
| OutputLosses.StreamFinishes | internal/core/plugin_processes.go:238-264 | Once a stream has ended, its forwarder can emit everything it holds and everything in the channel, whatever the others did. |
| OutputLosses.ExitComes | internal/core/plugin_processes.go:194-220 | From every state in which a process is reaped and its streams have ended there is a way to its exit event, even with a queue that stays full. |
| OutputLosses.LifeOfAProcess | internal/core/plugin_processes.go:185-220 | So a new process gets from its start to its exit. |
| CapturedOutput.LogIsCapped | internal/history/owned.go:357-390 | However the output is cut into writes and whatever was in the file, the log is that content, the output up to 16 MiB, and one marker exactly if more arrived. |
| CapturedOutput.RunInv | internal/core/plugin_processes.go:360-388 | An announced size that was not published is always pending behind an armed timer. |
| CapturedOutput.CaptureAnnounced | internal/core/plugin_processes.go:198-202 | After close and stop the last published size is the last announced one, and equals the length of the capped file if the copying goroutine was done. |
| CapturedOutput.PublishedInOrder | internal/core/plugin_processes.go:360-388 | What is published are sizes the log had after writes, in the order of the writes, each at most once. |
| CapturedOutput.PublishedWhen | internal/core/plugin_processes.go:360-388 | An announcement is published at once exactly if it is the first or 250 ms have passed since the last time; otherwise it waits behind a timer, and when one fires nothing is behind any more. |
| CapturedOutput.AbandonedWriteIsNotAnnounced | internal/core/plugin_processes.go:194-206 | With a write not announced, the last published size is the file's length exactly if an earlier write was announced and this one was empty or found the log full and marked. |
| CapturedOutput.AbandonedExample | internal/core/plugin_processes.go:194-206 | A run in which the file has grown and nothing was published. |
| CapturedOutput.BehindOnlyWithTimer | internal/core/plugin_processes.go:360-388 | While the capture runs, the published size is behind the announced one only with a timer armed. |
| CapturedOutput.ExecutionLog.Write | internal/history/owned.go:357-390 | The method appends as specified when the file takes the data; the caller always hears that all was written; the size field is the file's length even after a short write. |
| CapturedOutput.OutputNotifier.OnWrite | internal/core/plugin_processes.go:360-377 | A size is published at once or left pending behind a timer, as specified. |
| CapturedOutput.OutputNotifier.OnTimer | internal/core/plugin_processes.go:379-388 | A timer publishes what is pending, if anything is. |
| CapturedOutput.OutputNotifier.OnStop | internal/core/plugin_processes.go:391-404 | Stopping publishes what is pending, once. |
| ExecutionRetention.KeepsTheNewest | internal/history/owned.go:259-285 | Pruning leaves exactly the 200 newest finished executions of a subject, or all if there are fewer, and touches nothing else. |
| ExecutionRetention.OutcomeRecorded | internal/history/owned.go:180-211 | An outcome is recorded exactly for the owner's execution while it runs, and in that row alone; the owner is given the row, anybody else nothing. |
| ExecutionRetention.FoundAfterFinishIff | internal/history/owned.go:178-216 | The execution just finished is still there exactly if fewer than 200 finished ones of its subject started after it. |
| ExecutionRetention.FinishedAndGone | internal/history/owned.go:178-216 | A table in which it is not. |
| ExecutionRetention.FinishedOnce | internal/history/owned.go:178-216 | Whatever other callers do after it, a second report changes nothing and is answered with the first record, or with nothing if that was pruned. |
| ExecutionRetention.BoundedAtAllTimes | internal/history/owned.go:200-285 | With the lock free between update and pruning and any number of callers, a subject has at most 200 finished executions and one for each caller still to prune. |
| ExecutionRetention.Store.UpdateRow | internal/history/owned.go:200-211 | The update records an outcome once and returns the stored record. |
| ExecutionRetention.Store.FinishExecution | internal/history/owned.go:180-216 | Undisturbed, the call returns the record, and afterwards the subject has at most 200 finished executions. |
| ExecutionRetention.Store.PruneExecutions | internal/history/owned.go:278-280 | The deleting loop removes exactly the stale rows. |
| VersionOrder.PrecedenceLaws | internal/plugins/compatibility.go:30-33 | Precedence, as in section 11 of Semantic Versioning 2.0.0, is a total order on parsed versions. |
| VersionOrder.PrecedenceIff | internal/plugins/compatibility.go:30-33 | Precedence is that of section 11 of Semantic Versioning 2.0.0: the numbers in order, a pre-release below its release, and then the first identifier that differs. |
| VersionOrder.StringBeforeIff | internal/plugins/compatibility.go:24-29 | Strings are ordered by their first difference. |
| VersionOrder.BeforeIsStrictTotal | internal/plugins/catalog.go:121-122 | On version strings `versionBefore` is a strict total order, and it extends precedence. |
| VersionOrder.MixedStringsCycle | internal/plugins/compatibility.go:24-29 | With a string that is no version it need not be transitive: a concrete cycle. |
| VersionOrder.TransitiveIff | internal/plugins/catalog.go:121-122 | On a set of strings it is transitive exactly if no non-version lies, as a string, between two versions of the set that precedence puts the other way round. |
| VersionOrder.BuildIsNoUpdate | internal/plugins/compatibility.go:30-33 | Versions compare as equal exactly if they differ at most in build metadata. |
| Catalog.Validate | internal/plugins/catalog.go:81-119 | The loops accept exactly the documents of schema 1 with an array of good entries with distinct ids. |
| Catalog.ValidateEntry | internal/plugins/catalog.go:87-116 | The running maximum accepts `Latest` exactly if it is a version that no other one follows; version strings are distinct. |
| Catalog.Sort | internal/plugins/catalog.go:123-132 | A permutation by id; each entry's versions a permutation, latest first, if all are versions. |
| Catalog.GenerateCatalog | internal/plugins/publication.go:74-101 | Success exactly if every record is good and no plugin is released twice in one version; then the result is the catalog of the records and passes validation. |
| Catalog.GoodRecordsMakeTheCatalog | internal/plugins/publication.go:77-100 | Merging and sorting good records gives the catalog described from the set of records alone: name, description and latest come from the latest record. |
| Catalog.RepeatedReleaseIsRefused | internal/plugins/catalog.go:100-103 | A repeated release is always caught by the last validation. |
| Catalog.CatalogUnique | internal/plugins/publication.go:74-101 | There is only one catalog of given good records. |
| Catalog.OrderIndependent | internal/plugins/publication.go:74-101 | Any two orders of the same records are both refused or give the identical catalog. |
| Catalog.FindRule | internal/plugins/publication.go:22-39 | A rule is found exactly if the whole policy is good and has a publishable rule for the id. |
| Catalog.GeneratePublicCatalog | internal/plugins/publication.go:116-132 | Success exactly for a good policy and good public records; only publishable plugins get in. |
| Catalog.PublicPermuted | internal/plugins/publication.go:125-130 | The choice of public records depends on the records only, so the public catalog is order independent too. |
| Catalog.Compatible | internal/plugins/catalog.go:137-145 | The loop over the versions finds the latest that fits, and what is wrong with the latest one. |
| Catalog.Updatable | internal/plugins/catalog.go:146-150 | An update is offered exactly if the latest that fits has higher precedence than the installation listed last. |
| Catalog.Statuses | internal/plugins/catalog.go:133-154 | One such status for each entry, in order. |
| DataRoot.RunInv | internal/config/root.go:111-343 | Queueing, copying, verifying, switching, cleaning up, faults, stops and the program's own work keep the invariant. |
| DataRoot.ActiveHoldsTheData | internal/config/root.go:295-343 | At every point of every run the directory that the next start would use holds what the program last worked on or was told to use. |
| DataRoot.DataChangesOnlyByWork | internal/config/root.go:319-341 | Only the program's own work, or a switch without copying, changes what counts as the data. |
| DataRoot.LocatorMovesLast | internal/config/locator.go:103-123 | The locator moves only at its rename, and in a copy relocation only to a tree equal to the source in contents and modes; no failed copy or verification moves it. |
| DataRoot.CrashKeepsInv | internal/config/root.go:111-209 | A stop at any step, in the middle of a file too, leaves the active directory what it was. |
| DataRoot.OnlyTheDestination | internal/config/root.go:141-209 | A relocation under way changes no directory but its destination. |
| DataRoot.SourceUntouched | internal/config/root.go:141-209 | In particular its source stays as it is. |
| DataRoot.NothingIsOverwritten | internal/config/root.go:129-137 | Files are copied only into a directory that this run made. |
| DataRoot.VerifiedIsEqual | internal/config/root.go:345-391 | What was copied with its modes and passed verification is the same tree. |
| DataRoot.AlwaysOpenWhereItWorks | internal/config/root.go:161-207 | Every entry is made, and every final mode set in reverse order, below directories that are still open to their owner. |
| DataRoot.CopyTree | internal/config/root.go:142-208 | Walk and reverse loop succeed exactly if no operation fails and nothing but directories and files is met; then the entries and modes are those of the source, and the contents what was written. |
| DataRoot.VerifyTree | internal/config/root.go:345-391 | The loop succeeds exactly if every entry of the source is there with its kind and content. |
| DataRoot.Host.CopyDataRoot | internal/config/root.go:111-209 | A copy succeeds exactly if the destination is new and apart and the source is there, plain and copied without a fault; if it fails, what it made is removed as far as that succeeds. |
| DataRoot.Host.WriteDataRoot | internal/config/locator.go:103-123 | Temporary file, then rename: the locator is the new path, or unchanged if either fails. |
| DataRoot.Host.ApplyPendingDataRoot | internal/config/root.go:295-343 | A request that can be read is carried out exactly if the active directory is its source, the locator can be written and, with copying, the destination is new and apart, the source plain, no step fails and everything is written as it was read. What is where afterwards, in all cases. |
| DataRootMoves.QueuedIff | internal/config/root.go:241-292 | A request is queued exactly if the destination is apart and, for a copy, new, and none is pending; any other leaves everything as it was. |
| DataRootMoves.MoveCompletesIff | internal/config/root.go:319-343 | A move without faults completes exactly if every file was written as it was read: then the locator is at the destination, which is equal to the source, and nothing else has changed; otherwise the locator is where it was and what was made is about to be removed. |
| DataRootMoves.MovedOnRestart | internal/config/root.go:229-343 | From the request to the next start: a running program whose data is a plain tree comes back with the destination active, the same data in it, and the source still there. |
| DataRootMoves.SwitchedOnRestart | internal/config/root.go:319-343 | A switch is made without looking at the source; the data is then what the other directory holds. |
| DataRootMoves.FaultGivesUp | internal/config/root.go:200-208 | A fault while copying, closing or verifying, a link or a special file leads to the removal of what was made. |
| DataRootMoves.LocatorFault | internal/config/root.go:329-334 | So does a locator that cannot be written; after a switch there is nothing to remove. |
| DataRootMoves.OtherDeployment | internal/config/root.go:295-318 | A request of another deployment is dropped; one that cannot be read, or none, changes nothing. |
| DataRootMoves.StoppedAnywhere | internal/config/root.go:111-343 | A stop may leave anything at a destination that is being made or removed, and touches nothing else; the request is looked at again after the next restart. |
| Calendar.YearsFollow | internal/scheduler/scheduler.go:391 | The day numbers of successive New Year's Days differ by the year's length. |
| Calendar.DateRoundTrip | internal/scheduler/scheduler.go:369-373 | A date is found again from its day number. |
| Calendar.YearLaterSpan | internal/scheduler/scheduler.go:391 | A year later is 365 or 366 days later. |
| Calendar.YearLaterDate | internal/scheduler/scheduler.go:391 | It is the same time of day on the same date of the next year; after February 29 it is March 1. |
| CronFields.SplitJoin | internal/scheduler/scheduler.go:316 | Splitting loses nothing and leaves no separator in a part. |
| CronFields.TokenGrammar | internal/scheduler/scheduler.go:317-360 | Exactly the tokens that are a star, a number or two with a dash, possibly with a slash and a positive step, are accepted, with that meaning, if the range is not empty and within the limits. |
| CronFields.NoWrapVisits | internal/scheduler/scheduler.go:361-363 | Without wrap-around the loop visits exactly the terms of the arithmetic progression up to the end. |
| CronFields.FieldDenotes | internal/scheduler/scheduler.go:314-366 | A field is never empty; it is exactly the in-range union of its progressions if and only if no token's first step leaves 64 bits. |
| CronFields.WrappedExample | internal/scheduler/scheduler.go:314-366 | The field 31/9223372036854775806 is accepted for the day of the month and selects 27 too. |
| CronFields.Mark | internal/scheduler/scheduler.go:361-363 | The 64-bit loop ends and marks exactly the visited values. |
| CronFields.ParseField | internal/scheduler/scheduler.go:314-366 | The method accepts exactly the fields all of whose tokens parse, and marks their union. |
| Cron.ParseCron | internal/scheduler/scheduler.go:288-310 | Five or six fields, each accepted within its own limits; a day field is unrestricted exactly if it is a star; every accepted expression has a possible time of day, month and weekday. |
| Cron.Next | internal/scheduler/scheduler.go:387-400 | The search ends with the first match up to the limit, or the limit. |
| Cron.MatchesTheClock | internal/scheduler/scheduler.go:368-385 | At every moment of every date: the schedule matches exactly if second, minute, hour and month are selected and the day by the rule that a star asks nothing and two restricted day fields ask for either. |
| Cron.WeekdaysFollow | internal/scheduler/scheduler.go:373 | Weekdays follow one another, and January 1, 1970 was a Thursday. |
| Cron.EarlierOfTheTwo | internal/scheduler/scheduler.go:381-400 | With both day fields restricted the next time is the earlier of those that either field gives alone. |
| Cron.EitherDayExample | internal/scheduler/scheduler.go:381-400 | From text to time: `0 0 13 * 5` on Saturday, January 9, 2021 gives Wednesday the 13th. |
| Cron.NextIsLeastMatch | internal/scheduler/scheduler.go:387-400 | The result is unique and strictly after now; it matches exactly if anything up to the limit does, and then is the least match after now. |
| Cron.DateComesUp | internal/scheduler/scheduler.go:390-391 | Every date but February 29 comes up within the searched year, at every time of day. |
| Cron.WeekdayComesUp | internal/scheduler/scheduler.go:390-391 | So does every weekday in every month. |
| Cron.AlwaysOnTime | internal/scheduler/scheduler.go:368-400 | An accepted schedule always fires at a matching time if and only if it has a weekday to go by, no day restriction, or a date that exists in common years. |
| Cron.ImpossibleIsAccepted | internal/scheduler/scheduler.go:288-310 | The text 0 0 30 2 * is accepted and is not such a schedule. |
| Cron.ImpossibleFires | internal/scheduler/scheduler.go:387-400 | And at the end of 2021 its next time is New Year of 2023, which it does not select. |
| Cron.DailyIsLeast | internal/scheduler/scheduler.go:254-261 | A daily schedule gives the least moment strictly after now with that time of day. |
| ScheduleTable.OwnersCollideIff | internal/scheduler/scheduler.go:49 | Keys of two owners can coincide exactly if one owner's name followed by NUL begins the other's. |
| ScheduleTable.RemovalTakes | internal/scheduler/scheduler.go:97-109 | Removal by prefix takes all of an owner's schedules, and one of another owner only if one name and NUL begins the other. |
| ScheduleTable.PlainOwnersAreApart | internal/scheduler/scheduler.go:41-109 | With owners' names that hold no NUL it takes exactly the owner's, and a key is taken exactly if the owner has that id. |
| ScheduleTable.Scheduler.RegisterPlugin | internal/scheduler/scheduler.go:41-58 | Registration succeeds exactly if the schedule is good and its key is free. |
| ScheduleTable.Scheduler.RemovePlugin | internal/scheduler/scheduler.go:82-96 | Removal takes exactly that key. |
| ScheduleTable.Scheduler.RemovePluginOwner | internal/scheduler/scheduler.go:97-109 | Collecting ids by prefix and removing them one by one takes exactly the keys with that prefix, and leaves the owner nothing. |

## Left out

- `mapURL`, `redirect`, header filtering and request and response metadata: one parameter says whether a request is acceptable; `http.NewRequestWithContext` failing after the table was updated closes the gateway and is not a case of its own.
- The pipe between forwarder and client, deadlines and the five-minute idle timeouts: reads and writes simply finish or fail; goroutine bodies are steps of a machine rather than loops, so their fields are values there.
- A failed `WriteFrame` leaves part of a frame on the wire: `HttpTunnel` ends the connection at once and does not show that part.
- Opening and closing of WebSockets, their identifiers and the limit of 16; frames for a socket that is gone.
- HttpTunnel.WakeupArrives: says that waking is possible, not that a scheduler eventually does it; fairness is not modelled.
- Derivation of a cookie's domain and path from the request, and the standard jar behind the bound.
- AES-GCM, HKDF and ECDH: encryption is ideal, the others are functions given from outside, and the two directions' keys are taken to differ; a raw read gives whole messages.
- Asset and mount syntax (`browserAsset`, `browserpath.Validate`, `Mount`): a flag says whether a request is well formed. A random identifier that collides is treated as one that could not be drawn.
- Network dialling, reading, peeking and writing, and release after an attachment; reading the clock twice in one operation.
- WASM memory and call timeouts, except that a call may trap; which output is JSON is a predicate given from outside.
- Process sessions, PTYs, kill and timeout of processes; the end of event delivery when the host shuts down; the read end of a pipe may end at any time. Other appenders to an execution log and the file's write errors are in `CapturedOutput.ExecutionLog.Write` only, not in the theorems on whole captures.
- Minimum spacing of output notifications: a direct publication can leave an older timer armed.
- Appending and listing executions, rowids that SQLite may give again after deletion, removal of log files, and `AbandonExecutions`, which finishes executions at the start without pruning.
- The semver library's parser, and numeric pre-release fields beyond 64 bits, which it compares as strings; contract constraints, platform names, URLs and checksums are predicates given from outside; catalog JSON and its size limit; installation.
- Catalog.Sort: `sort.Slice` is any sorting that permutes, and orders if the relation does; the unspecified result for other relations is not described further.
- Access checks of data directories, umask, and the mode of the data directory itself; a digest comparison is a comparison of contents; a loss of power that undoes writes already made is not modelled, only stops of the program. A command line flag for the data directory is not modelled; the environment variable is, as a constant.
- Interval schedules, time zones and daylight saving; timers and callbacks. Registration during `RemovePluginOwner` is not interleaved.
- Everything else of RunPilot: web interface, jobs, backups, Docker, remote sessions, host metrics.
