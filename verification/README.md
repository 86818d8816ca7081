# A model of the OpsView relay's live paths

The relay passes live video, screen tiles, events and recordings from one publisher to
many viewers. This project models the stateful part of that work, in Dafny, and proves what
holds in every run of it. Queues, pipes, files and clocks are values; media libraries are
functions that may fail.

* `Grid`, `GridSystem`, `GridAnnounced`, `GridProgress`, `GridRetired`, `GridControls`,
  `GridObjects`, `GridVideo`: the live grid, where many channels share one connection. Dashboard,
  relay and the two pipes between them are one transition system: what goes wrong in no run, what
  is told and served in every run, and that it never gets stuck; the writer loop and the
  dashboard's factory are classes held to its steps; and grid and hub together say what a channel
  begins with.
* `WsHub`, `AnnexB`, `Ingest`, `MuxMeaning`: a channel's fan-out hub with its cache of the current
  group of pictures, the streaming parser for the byte stream of Annex B of ITU-T H.264, and the
  path from bytes to what each client is given.
* `Ovp`, `FrameCodec`, `FrameBuffer`, `Viewer`, `LateJoin`, `JoinProtocol`, `JoinProgress`,
  `JoinCases`, `AgentSession`: the wire format, the tile cache, a watcher whose canvas is drawn
  later than it is cleared and who joins while deltas are on their way, that joining is always
  possible, and the cases in which it does not agree with the relay.
* `Recordings`, `Clustering`, `EventStore`, `EventPairs`, `Timeline`, `Janitor`: the indexes over
  recordings and events, the timeline that is put together from them, and the choice of what to
  delete.
* `ThumbCache`, `ThumbQueue`, `PinLimiter`, `ConnectGate`: resources with a bound.
* `Bytes`, `Days`, `Sorting`: bytes, fixed-width integers, calendar days, sorting, and a few facts
  about sequences.

The same plan is followed throughout. A step function on a datatype says what one event does.
A class with the source's own fields has one method for each operation, and the method's
contract ties the new state to that step function or to a history kept beside it. Lemmas then
speak about whole runs, compared with something simpler: a history, a fold, a full scan; and what
a step function decides is said once more without it, in terms of bytes, edges, units or pixels.

Where comments and code of the repository differ, or the code relies on less than a reader might
expect, the model follows the code:

* The PIN limiter's comment (relay/limiter.go:50-51) speaks of a sliding window. The window is
  fixed by its first failure, and connections that were let in are not stopped by a block, so
  more failures than the threshold can fall into one window length. `PinLimiter.SlidesExactlyWhen`
  says when they cannot, and `PinLimiter.BoundIsBest` gives the exact bound otherwise.
* A change of tile size alone empties the relay's cache (relay/framebuf.go:51-52) but not the
  watcher's canvas (web/viewer.js:414-420). Late joining is therefore stated for a constant tile
  size, and for a single delta it is stated exactly when the two stay in agreement.
* The viewer clears its canvas when a delta arrives and draws the delta's tiles later
  (web/viewer.js:414-448), so tiles of an old resolution can end up on the new canvas; it
  keeps its canvas when it reconnects (web/viewer.js:247-277); and it skips tiles that it cannot
  decode (web/viewer.js:462-487). Late joining is stated with all three, and with the exact set of
  positions at which the watcher differs from the relay.
* The dashboard's handlers test whether their connection is still the current one
  (relay/dashboard_assets/wsplayer.js:106-108) and do not rely on a browser that stops delivering
  once a connection is closed. In the model it need not stop: what was on its way may arrive after
  the connection was given up, and so may its open event.
* The comment on the deletion order (relay/recorder.go:237-240) says that the keep-all window is
  never deleted. The code deletes it last; `Janitor.RecentIsSparedIff` says exactly when some of it
  goes.
* `overlaps` (relay/events.go:262-280) looks at the first and the last day of its range only; it
  is right exactly for ranges that end no later than the day after they start. The janitor's own
  ranges are one segment long (relay/recorder.go:321-331).

## Model

| member | source | states |
|---|---|---|
| Grid.PacketRoundTrip | relay/live_grid_ws.go:103-107 | A packet carries its slot in two big-endian bytes and then the fragment; the dashboard reads both back. |
| GridSystem.ReceivesItsOwnStream | relay/dashboard_assets/wsplayer.js:107-153 | In every run, what a virtual socket is handed is a prefix of what the hub gave the one client subscribed to that socket's own stream; while it is open it has everything that arrived for its slot. Holds across unsubscribe, packets that arrive after their connection was given up, idle close, failures and the wrap of slot numbers. |
| GridRetired.RetiredStaysSilent | relay/dashboard_assets/wsplayer.js:141-143 | From the moment a connection is given up, in every continuation, with whatever still arrives on it and whichever of its handlers run: nothing is handed to anyone on it, counted or acknowledged for it, the offer of credit included, and no virtual socket is ever made on it again. |
| GridRetired.RetiredIsDeaf | relay/dashboard_assets/wsplayer.js:106-108 | On a connection that was given up the open, close and timeout handlers change nothing at all, and a message that arrives is used up without any other effect. |
| GridRetired.LateOfferIsIgnored | relay/dashboard_assets/wsplayer.js:104-112 | A concrete run in which a connection is given up for opening too slowly and the relay's offer of credit arrives on it afterwards. |
| GridSystem.SlotsAreNotReused | relay/dashboard_assets/wsplayer.js:141-150 | In every run, no slot is subscribed twice on one physical connection, slots stay within 16 bits, and two virtual sockets of a connection never share a hub client. |
| GridAnnounced.SubscribedExactlyWhenOpen | relay/dashboard_assets/wsplayer.js:88-93 | In every run, a virtual socket counts as opened exactly when its subscription was sent on its connection; while that is the current one and open, every open virtual socket has been subscribed, and of those subscribed the closed ones are exactly the ones unsubscribed. No open one is ever unsubscribed. |
| GridAnnounced.StepTells | relay/dashboard_assets/wsplayer.js:88-151 | Every single event keeps what has been told about every virtual socket. |
| GridProgress.AskedIsSubscribed | relay/dashboard_assets/wsplayer.js:135-153 | From every state a run can reach, a stream that is asked for is subscribed to on the current connection, however many slots were used before: at once if that is open, or as soon as it opens. |
| GridProgress.SubscriptionIsTaken | relay/live_grid_ws.go:88-101 | In every such state, the relay that reads a subscription serves the slot from then on exactly if it serves fewer than sixteen and the stream has a hub: with that stream, the hub's seed, two starting messages to go, and no other slot touched. |
| GridProgress.UnsubscriptionIsTaken | relay/live_grid_ws.go:84-87 | A slot that is unsubscribed is not served any more, its hub client is closed, and every other slot and queue is as before. |
| GridProgress.ServedExactlyWhenSubscribed | relay/live_grid_ws.go:77-102 | In every run a relay serves at most sixteen slots of a connection, each subscribed to the stream it is served and not unsubscribed; what was served and is not any more was unsubscribed, or its feed has ended. |
| GridProgress.NothingIsStuck | relay/live_grid_ws.go:63-195 | From every state a run can reach, an open virtual socket that the relay serves can be handed everything its hub has given it, by the two pipes moving and the relay sending for it alone: credit always comes back in time. |
| GridProgress.StepIsSound | relay/live_grid_ws.go:77-195 | Every single event keeps the invariants about what is told and what is served. |
| GridProgress.IdleTimerEnds | relay/dashboard_assets/wsplayer.js:77-86 | The idle timer ends the connection exactly if every virtual socket is closed. |
| GridProgress.GivingUpClosesAll | relay/dashboard_assets/wsplayer.js:94-101 | A current connection that broke, or did not open in time, is given up with all its virtual sockets closed; the old route is used from then on exactly if a connection had never opened. |
| GridProgress.DisposingClosesAll | relay/dashboard_assets/wsplayer.js:155-160 | A factory that is disposed of has every virtual socket closed, and makes no more. |
| GridSystem.CreditIsBounded | relay/live_grid_ws.go:63-64 | In every run, acknowledged bytes never exceed sent bytes, so the unsigned difference cannot wrap, and what is unacknowledged stays below the window plus the packet that filled it. |
| GridSystem.CreditIsConserved | relay/live_grid_ws.go:77-83 | In every run on the current connection, sent bytes are the counted ones plus those in transit; with both pipes empty all is acknowledged; and a relay without credit has a message or an acknowledgement on its way. |
| GridSystem.AnyControlKeepsCredit | relay/live_grid_ws.go:77-83 | Whatever control a client sends, the acknowledged counter only grows and never passes the sent one. |
| GridControls.NothingIsRefused | relay/live_grid_ws.go:207-220 | In every run in which only valid streams are asked for, the relay ends no connection because of a control the dashboard sent on it: slots are never zero, and acknowledgements only go to a relay that offered credit. |
| GridSystem.StepKeepsInv | relay/live_grid_ws.go:77-195 | Every single event of dashboard, pipes, relay or hub keeps the joint invariant of all connections. |
| GridSystem.OpensKeepsInv | relay/dashboard_assets/wsplayer.js:135-153 | Making a virtual socket, with or without a new physical connection, keeps the invariant. |
| GridProgress.RecyclingMakesRoom | relay/dashboard_assets/wsplayer.js:143 | While slot numbers are left nothing changes; after the last, numbering begins anew, the connection is given up and every virtual socket closed. |
| GridSystem.RecycleKeeps | relay/dashboard_assets/wsplayer.js:141-143 | Before slot numbers come round the physical connection is given up, and nothing that was promised about it is lost. |
| GridSystem.ArrivalKeepsInv | relay/dashboard_assets/wsplayer.js:107-121 | A message on the current connection is counted, acknowledged and handed to the right virtual socket only. |
| GridSystem.LateArrivalKeepsInv | relay/dashboard_assets/wsplayer.js:107-108 | A message that arrives on a connection that was given up is used up, and what is promised of every other connection and of all virtual sockets stays. |
| GridSystem.ReadsKeepsInv | relay/live_grid_ws.go:77-102 | The relay's handling of any control keeps the invariant. |
| GridSystem.SendsKeepsInv | relay/live_grid_ws.go:103-113 | Writing the head of a slot's queue keeps the invariant, the window included. |
| GridControls.AcceptedIsProper | relay/live_grid_ws.go:202-220 | A message is accepted exactly if it says a control as the dashboard writes it, with a slot and a valid stream where it has them and credit flow for an acknowledgement; and it says only one. |
| GridObjects.LiveGridServer.Accepts | relay/live_grid_ws.go:202-220 | Exactly which messages are refused, and so end the connection: an acknowledgement without credit flow or with a slot, a subscription or unsubscription without one, an unknown operation, an invalid stream; any other is the control it stands for. |
| GridObjects.LiveGridServer.Handle | relay/live_grid_ws.go:77-102 | A control changes the writer's state as the transition system says, subscription limit and unknown streams included. |
| GridObjects.LiveGridServer.Remove | relay/live_grid_ws.go:66-71 | Removing a slot closes its hub client and forgets the slot, and changes nothing else. |
| GridObjects.LiveGridServer.SendHead | relay/live_grid_ws.go:103-113 | The packet written, the queue, the startup counter and the byte count move together. |
| GridObjects.LiveGridServer.SendStartup | relay/live_grid_ws.go:125-155 | Init segments go before first keyframes and those before everything else; when nothing was sent though credit was left, no starting channel had anything to send. |
| GridObjects.LiveGridServer.SendSelected | relay/live_grid_ws.go:156-194 | A selected channel sends its head, or is removed when its queue was closed. |
| GridObjects.GridFactory.HandleMessage | relay/dashboard_assets/wsplayer.js:107-121 | The message handler makes exactly the step of the transition system. |
| GridObjects.GridFactory.HandleOpen | relay/dashboard_assets/wsplayer.js:106 | The open handler announces every waiting subscriber, and only if the connection is still the current one. |
| GridObjects.GridFactory.NewSocket | relay/dashboard_assets/wsplayer.js:135-153 | A new virtual socket clears the idle timer, recycles the slots if they have run out, takes the next slot and is announced at once when the connection is open; none if the factory is closed or on the old route. |
| GridObjects.GridFactory.CloseSocket | relay/dashboard_assets/wsplayer.js:145-149 | Closing unlists the virtual socket, sends the unsubscription and, if it was the last, sets the idle timer for the current connection; a second close does nothing. |
| GridObjects.GridFactory.FireIdle | relay/dashboard_assets/wsplayer.js:77-86 | The idle timer closes the connection it was set for, if that is still the current one and still unused. |
| GridObjects.GridFactory.GiveUp | relay/dashboard_assets/wsplayer.js:94-101 | Giving a connection up closes every subscriber, and falls back to the old route if it never opened. |
| GridObjects.GridFactory.Dispose | relay/dashboard_assets/wsplayer.js:155-160 | Disposing stops the factory and closes every subscriber. |
| GridVideo.SocketsBeginWithVideo | relay/dashboard_assets/wsplayer.js:119-120 | Grid and hub together: in every run of the grid, a virtual socket whose feed comes from a hub that had an init segment before its first keyframe is handed an init segment of that hub first and a keyframe of it next. |
| GridVideo.CountersTellWhatIsNext | relay/live_grid_ws.go:125-155 | In every run, a channel's startup counter says what it sends next: an init segment at two, a keyframe at one. So the writer's startup phases serve what they are meant for. |
| WsHub.ClientHistory | relay/surv_ws.go:228-289 | In every run with an init segment set before the first keyframe, a client's history is empty or init, keyframe, and then an order-preserving selection of the broadcasts from that keyframe on; contiguous exactly when nothing was dropped for it. |
| WsHub.FastStart | relay/surv_ws.go:272-289 | A joiner is seeded with init and precisely the broadcasts since the last keyframe, if there was one and fewer than the cap follow it; the seed always fits its buffer. |
| WsHub.CacheAgrees | relay/surv_ws.go:234-242 | The cache is the suffix of the broadcast history since the last keyframe, or empty when that is longer than the cap. |
| WsHub.StepKeepsInv | relay/surv_ws.go:219-298 | Every operation of hub and clients keeps the invariant about histories, queues and cache. |
| WsHub.RunKeepsLead | relay/surv_ws.go:225-227 | Whatever a client is given first is an init segment that was set, if one was set before the first keyframe. |
| WsHub.InitIsTheLatest | relay/surv_ws.go:219-223 | In every run the init segment that clients begin with is the last one that was set. |
| WsHub.BroadcastReaches | relay/surv_ws.go:243-262 | In every run a broadcast reaches every client: one that has started gets the fragment unless its 512 places are taken; one that waits is started by a keyframe and by nothing else, with the init segment in front if there is one. |
| WsHub.ClientsAreThoseWhoStay | relay/surv_ws.go:272-298 | A hub has exactly the clients that joined and have not left since, so who has left is given nothing more. |
| WsHub.LedInExactlyWhen | relay/surv_ws.go:248-257 | For every feed of init segments and broadcasts: all clients that are started, in every interleaving with joins, leaves and reads, were led in by an init segment exactly when no keyframe is broadcast before the first init segment is set. |
| WsHub.BroadcastBeforeInit | relay/surv_ws.go:248-257 | A concrete run with a keyframe before the first init segment, in which a client is handed the keyframe without one. |
| WsHub.SurvWSHub.Broadcast | relay/surv_ws.go:228-263 | The fan-out loop updates cache and every client as the reference step does. |
| WsHub.SurvWSHub.Add | relay/surv_ws.go:272-289 | Joining seeds all or nothing, as the reference step does. |
| WsHub.SurvWSHub.Remove | relay/surv_ws.go:291-298 | Leaving removes one client and no other. |
| WsHub.SurvWSHub.SetInit | relay/surv_ws.go:219-223 | Setting the init segment changes nothing else. |
| WsHub.SurvWSClient.TrySend | relay/surv_ws.go:258-261 | A send either appends to the bounded queue or drops; it never waits. |
| Ingest.AvccRoundTrip | relay/surv_ws.go:184-199 | Length-prefixed sample data parses back to the access unit exactly when every unit is shorter than 2^32 bytes. |
| Ingest.AnnexBToAVCC | relay/surv_ws.go:186-199 | The loop produces every unit behind its big-endian length. |
| Ingest.FragMuxer.TryBuildInit | relay/surv_ws.go:74-97 | The init segment is built once, when the parameter sets are known. |
| Ingest.FragMuxer.ExtractParams | relay/surv_ws.go:100-123 | The latest parameter sets of an access unit are kept, per codec. |
| Ingest.FragMuxer.Write | relay/surv_ws.go:128-169 | Fragment, keyframe flag, duration and the one-time init segment of each access unit. |
| Ingest.StreamEntry.IngestAnnexB | relay/surv_transcode.go:230-275 | For every byte stream and every way of cutting it into reads, the hub ends up as if fed the complete access units of the whole stream, the k-th with time k times the step. |
| MuxMeaning.FeedMeaning | relay/surv_ws.go:74-169 | What a muxer makes of any access units: nothing, while the latest parameter sets are not enough for an init segment; or that segment, with the first unit that makes it possible, and then in order one fragment for each unit from that one on that can be written, with its time, its distance to the unit before (a thirtieth of a second if there is none of up to two seconds), its payload, and the keyframe flag exactly if decoding can begin with it. |
| MuxMeaning.ClientsGetTheStream | relay/surv_transcode.go:226-275 | End to end, from bytes to clients: what a started client was given is the stream's init segment and the fragments of access units in order, the first of them one that decoding can begin with; and if the client lost nothing, every unit from there on that can be written. |
| MuxMeaning.KnownAppend | relay/surv_ws.go:100-123 | The parameter sets kept are the last of each kind: types 7 and 8 of H.264, types 32, 33 and 34 of H.265. |
| Ingest.FeedSetsInitFirst | relay/surv_ws.go:128-138 | What one muxer makes a hub do is nothing, or it begins with setting the init segment and goes on with broadcasts only. |
| WsHub.InterleavingKeepsOrder | relay/surv_transcode.go:246-252 | Joins, leaves and reads in between do not change whether an init segment comes before the first keyframe. |
| Ingest.IngestedClientsAreLedIn | relay/surv_transcode.go:226-229 | End to end: a client of an ingested stream gets the stream's one init segment, then a keyframe, whenever it joins. |
| AnnexB.SplitResumes | relay/surv_transcode.go:91-120 | Splitting a + b equals splitting a and then its rest followed by b. |
| AnnexB.SplitInvertsWrite | relay/surv_transcode.go:91-120 | Well-formed units (B.1.1 and 7.4.1 of ITU-T H.264) written with start codes of any length come back byte for byte, all but the last, which waits behind its start code. |
| AnnexB.SplitNALUnits | relay/surv_transcode.go:96-120 | The index scans compute the specified split. |
| AnnexB.TrimTrailingZeros | relay/surv_transcode.go:110-114 | Trailing zeros are left to the next start code. |
| AnnexB.GroupNALsIntoAUs | relay/surv_transcode.go:125-142 | The grouping loop computes the access units, the unterminated last one included. |
| AnnexB.GroupingMeaning | relay/surv_transcode.go:122-124 | Units without a delimiter form one access unit, and a delimiter separates what is before it from what is after. |
| AnnexB.GroupingLosesNothing | relay/surv_transcode.go:122-142 | Access units are non-empty, hold no delimiter, and together are all units other than delimiters in order. |
| AnnexB.GroupAppend | relay/surv_transcode.go:263-269 | Grouping continues across reads from the open access unit. |
| Ovp.DecodeHeaderAcceptsExactly | proto/ovp.go:89-114 | The header decoder accepts exactly what the header encoder writes. |
| Ovp.ReadAcceptsExactly | proto/ovp.go:117-136 | Reading returns a message exactly when the stream begins with that message marshalled and its payload is at most 64 MiB; the stream goes on right behind it. |
| Ovp.ReadsBackWhatWasWritten | proto/ovp.go:117-144 | Marshalled messages one behind the other are read back one by one, and then the stream is at its end. |
| Ovp.EncodeHeader | proto/ovp.go:89-94 | Twelve bytes in order, the rest of the buffer untouched. |
| Ovp.HeaderLayout | proto/ovp.go:89-114 | Where each field of a header is, byte by byte, and that exactly the headers that begin with the fixed bytes of magic and version are accepted. |
| Ovp.MarshalMessage | proto/ovp.go:139-144 | Header and payload; the length keeps 32 bits. |
| Ovp.Reader.ReadMessage | proto/ovp.go:117-136 | The reader consumes and fails as specified, early ends of the stream included; a header that was read is returned beside an error in it or in its payload. |
| FrameCodec.DecodeAcceptsExactly | proto/frame.go:90-135 | A payload decodes to a delta exactly when the delta's counts are right and its encoding is a prefix of the payload. |
| FrameCodec.RoundTrip | proto/frame.go:46-135 | Decoding an encoding gives the delta back exactly when tile count and data lengths were right. |
| FrameCodec.DeltaLayout | proto/frame.go:90-112 | Where each field of a delta's header is, byte by byte. |
| FrameCodec.TileLayout | proto/frame.go:114-126 | Where each field of a tile's header is, byte by byte. |
| FrameCodec.EncodeFrameDelta | proto/frame.go:46-87 | The running-offset writer fills the buffer with the specified bytes. |
| FrameCodec.DecodeFrameDelta | proto/frame.go:90-135 | The running-offset reader computes the specified result, its errors included. |
| FrameCodec.TruncationIsFinal | proto/frame.go:114-132 | A truncated tile is the error, whatever the count that was declared. |
| FrameBuffer.KeyFrameDecodes | relay/framebuf.go:79-103 | The keyframe has the cache's numbers and the time it was made, and decodes to the cached tile map exactly when at most 65535 tiles are cached. |
| FrameBuffer.FoldKeepsInv | relay/framebuf.go:51-77 | Whatever was accepted from the wire leaves the cache keyed by position, measured and of valid geometry. |
| FrameBuffer.FoldMeans | relay/framebuf.go:51-77 | A delta with a dimension of zero or beyond 7680 by 4320 changes nothing; any other hands over its numbers, and leaves at each position the last of its tiles there, or else what was there before if the geometry is the same. |
| FrameBuffer.TileKeyIsInjective | relay/framebuf.go:44 | Two tiles have the same key exactly when they have the same position. |
| FrameBuffer.PaintOfList | relay/framebuf.go:99-101 | Any listing of the cached tiles painted onto nothing is the cache. |
| FrameBuffer.FrameBuffer.Update | relay/framebuf.go:53-77 | One delta folded in: ignored if unusable, reset on new geometry, tiles overwritten in order. |
| FrameBuffer.FrameBuffer.FullFrameMessage | relay/framebuf.go:82-103 | None exactly when nothing is cached; otherwise a marshalled delta listing every cached tile once. |
| Viewer.DeltaKeepsAgreementIff | relay/framebuf.go:60-63 | A delta applied by the relay and painted at once keeps them in agreement exactly when it does not change the tile size alone, or paints over all that is shown. |
| Viewer.SeenIsDecoded | web/viewer.js:400-446 | What the relay accepts the watcher's lenient parser reads the same way, from any part of the payload that covers the delta. |
| Viewer.VisiblePaint | web/viewer.js:437-441 | Leaving out off-screen tiles before painting or afterwards is the same. |
| Viewer.OnScreenExactlyWithAPixel | web/viewer.js:437-443 | A tile is on the screen exactly when some pixel of the canvas lies within it. |
| Viewer.KeptOneByOne | web/viewer.js:437-443 | Of a delta's tiles exactly those are kept, in order, whose first pixel is left of the width and above the height. |
| Viewer.PaintTwice | relay/hub.go:411-415 | Painting a delta's tiles a second time changes nothing. |
| Viewer.ScreenView.HandleFrameDelta | web/viewer.js:400-454 | The handler clears the canvas on a new resolution and leaves the complete, visible tiles to be drawn. |
| Viewer.ScreenView.DrawTiles | web/viewer.js:461-495 | The next waiting delta's tiles are drawn in order onto the canvas as it is by then; a tile of an unknown codec, or one that cannot be decoded, is skipped. |
| Viewer.DecodedOneByOne | web/viewer.js:462-487 | Of the tiles to draw exactly those are left, in order, that have codec 1 or 2 and are not broken. |
| Viewer.SeeKeepsLinked | web/viewer.js:414-448 | An arriving delta keeps the stains exactly the positions at which the real canvas, once drawn, differs from painting every tile at once: those of tiles left from before, or undrawn when the resolution changed, or whose last tile cannot be decoded, and that nothing has painted over. |
| Viewer.DrawKeepsSettled | web/viewer.js:448-495 | Drawing late changes nothing of what will be shown in the end, tiles that cannot be decoded included. |
| Viewer.DiffersAtStains | web/viewer.js:414-495 | A watcher that has seen everything differs from the relay, once all is drawn, exactly at its stains; so it agrees exactly when it has none. |
| Viewer.UnfoldedAgreesIff | relay/hub.go:411-415 | Any delta that the relay refuses but passes on: exactly when the watcher still agrees after painting it. |
| Viewer.LostAgreesIff | relay/agent_session.go:70-73 | Any delta that the relay folds and the watcher loses: exactly when the watcher still agrees. |
| LateJoin.FoldClosed | relay/framebuf.go:53-77 | The cache after any usable deltas of one tile size is what was painted since the resolution last changed. |
| LateJoin.ReplayAgrees | relay/hub.go:471-497 | A watcher that agrees with the cache and then replays deltas already contained in it agrees again at the end. |
| LateJoin.AgreesAgainIff | relay/framebuf.go:53-77 | A cache and a watcher with any screens at all, to which the same deltas come, agree in the end exactly when the resolution changed between two of the deltas, or the deltas painted over every position where something different was left. |
| JoinProtocol.LateJoinConverges | relay/hub.go:471-497 | In every interleaving of publishing, fan-out, registering, keyframe, draining, drawing, leaving and registering again with the old canvas, whatever was lost before the keyframe and whatever tiles the watcher cannot decode: the relay's tiles are those painted since the resolution last changed, and a watcher that lost nothing since its keyframe and has seen everything differs from the visible ones of them exactly at its stains; so it agrees exactly when it has none. |
| JoinProtocol.RecoversExactlyWhen | relay/agent_session.go:66-80 | In every run, whatever was lost and whatever the keyframe left out: what the watcher will have painted agrees with the relay again exactly when the resolution changed between two deltas that came since the last loss, or those deltas painted over every position where something different was left; its stains are then again all that it differs in. |
| JoinProgress.JoiningIsPossible | relay/hub.go:471-497 | From every state a run can reach, a watcher can join anew without anything being published and be handed all that is under way; if the keyframe has room for the tiles, it loses nothing on the way and ends up differing from the relay exactly at its stains. |
| JoinProgress.NothingWaitsForTheAbsent | relay/hub.go:471-497 | In every run nothing waits for a watcher that is away: whoever joins anew is sent nothing from before. |
| JoinProgress.CatchUp | relay/agent_session.go:61-87 | From any state, a connected watcher whose queue holds anything at all can be handed everything under way without losing any of it. |
| JoinProtocol.PatientRunsHaveNoStains | web/viewer.js:414-448 | If no change of resolution finds an undrawn tile that would lie on the new canvas, every last tile of a delta can be decoded, and the watcher registers with an empty canvas, there are never any stains. |
| JoinProtocol.JoinTimeDoesNotMatter | relay/hub.go:478-488 | Two watchers that joined at different times, with queues of any capacity and decoders of any kind, and saw the same history show the same wherever neither has a stain. |
| JoinProtocol.StepKeepsInv | relay/agent_session.go:61-87 | Every step of publisher, broadcast loop and watcher, for any queue capacity, keeps the invariant. |
| JoinProtocol.SnapshotKeepsInv | relay/hub.go:486-488 | The keyframe sent after registering closes the gap, whatever is queued already. |
| JoinCases.DropLosesTheNext | relay/agent_session.go:66-80 | A full queue loses precisely the message the watcher would have seen next, and it counts from there what comes since. |
| JoinCases.LostDeltaDiverges | relay/agent_session.go:70-73 | Every lost delta with a tile at a position that was not shown makes watcher and relay disagree. |
| JoinCases.TileSizeChangeDiverges | relay/framebuf.go:60-63 | Every change of tile size alone, with a tile at a position other than that shown, makes watcher and relay disagree. |
| JoinCases.RefusedDeltaDiverges | relay/hub.go:411-415 | Every delta of another size that the relay refuses for its dimensions but broadcasts makes watcher and relay disagree. |
| JoinCases.MisreadAgreesIff | relay/hub.go:411-415 | Any message that the relay or the watcher does not read, be it refused, truncated or with a header longer than the payload: exactly when it leaves them in agreement. |
| JoinCases.TruncatedDeltaDiverges | web/viewer.js:424-433 | A delta that is cut off within its second tile: the relay refuses it, the watcher paints the first tile, and they disagree. |
| JoinCases.ShortHeaderDiverges | web/viewer.js:316-325 | A header that covers less than its payload: the relay folds a tile that the watcher does not read, and they disagree. |
| JoinCases.LateDrawingDiverges | web/viewer.js:414-448 | A run without any loss in which a tile of the first resolution is drawn after the second has cleared the canvas, and stays there although the relay does not have it. |
| AgentSession.QueueHoldsTheNewest | relay/agent_session.go:64-80 | A queue nobody drains holds the newest messages, as many as fit. |
| AgentSession.Session.FanOut | relay/agent_session.go:61-87 | Each watcher's queue gets the message, the oldest giving way; only a queue that can hold nothing is reported for removal. |
| AgentSession.Session.HandleFrame | relay/hub.go:411-415 | A frame is folded into the cache if it can be decoded, and is queued for the watchers as it came in any case. |
| AgentSession.Session.RemoveWatcher | relay/agent_session.go:90-99 | Removal is counted once and a second removal does nothing. |
| Recordings.Recorder.SegmentsForExport | relay/recordings.go:193-240 | Reading only the days and starts around the range gives what durations over all recordings, filtered by overlap, would give. |
| Recordings.ExportIsDisjoint | relay/recordings.go:190-192 | The result is sorted and no two of its recordings overlap. |
| Recordings.ExportIsUnique | relay/recordings.go:190-192 | The full lookup determines its result. |
| Recordings.DurOfMeans | relay/recordings.go:170-178 | A recording lasts to the next start behind its own, or for the nominal length if none comes before that. |
| Recordings.OverlapsMeans | relay/recordings.go:234-240 | A recording overlaps a range exactly when they have a second in common. |
| Recordings.BandIsEnough | relay/recordings.go:212-233 | Durations computed within the band are those over all recordings, wherever the overlap filter looks at them. |
| Recordings.Recorder.SegmentAt | relay/recthumb.go:347-357 | A moment is found in a recording exactly when some recording contains it. |
| Recordings.IndexMeans | relay/recordings.go:127-188 | A day's index lists exactly the recordings that begin from midnight to midnight, without directories when sizes are wanted, each lasting to the next one listed or for the nominal length. |
| Recordings.Recorder.IndexedSegments | relay/recordings.go:127-188 | Cached or scanned, a day's index lists that day's entries in order with gap-to-next durations. |
| Recordings.Recorder.ChangeDirectory | relay/recordings.go:35-38 | After any change of a directory and of its time, be it forward or back, the caches are right exactly when those kept with the new time fit the new entries; if the times only ever moved on, they always are. |
| Recordings.Recorder.Remember | relay/recordings.go:180-187 | The index cache gains one entry, after being emptied if it was full, and stays bounded. |
| Recordings.DaysInRange | relay/rectimeline.go:36-50 | Every day from that of the start to that of the end, in order; none for an empty range. |
| Recordings.SetDurations | relay/recordings.go:170-178 | Each duration is the gap to the next entry when positive and shorter than nominal. |
| Clustering.ClusterEventItems | relay/events.go:337-391 | The items are taken in a sorted order, merged, and motion is dropped. If no item ends before it starts, the result holds each maximal run of intervals of one stream and kind once, motion next to something specific left out; and every interval belongs to such a run. |
| Clustering.OrderDoesNotMatter | relay/events.go:335-336 | Plates apart, the result depends only on the multiset of items. |
| Clustering.OrderMattersBackwards | relay/events.go:342-366 | With an item that ends before it starts, two orders of the same items, both sorted, give different numbers of results. |
| Clustering.ClusteringIsIdempotent | relay/events.go:335-391 | Clustering a result again changes nothing. |
| Clustering.ResultsAreApart | relay/events.go:311-317 | Results of one stream and kind are more than the gap apart. |
| Clustering.CoveredByExactlyOne | relay/events.go:311-317 | Each interval lies in exactly one cluster with end points from the input; it is shown unless it is motion within the gap of a specific cluster of its stream. |
| Clustering.MergeIsClustering | relay/events.go:342-366 | Over sorted items the merging pass yields exactly the clusters. |
| Clustering.EntriesAreRuns | relay/events.go:351-366 | The entries are consecutive runs of the sorted items: each begins like its first item, ends with the last to end, and has the first plate there is. |
| Clustering.ShownMeans | relay/events.go:367-390 | A cluster is left out exactly if it is motion and a moment of it is within the gap of a moment of a cluster of the same stream that is something else. |
| Clustering.NearMeans | relay/events.go:379 | Two intervals are near each other exactly when a moment of the one is within the gap of a moment of the other. |
| Clustering.LessMeans | relay/events.go:342-350 | One name comes before another exactly when it is a beginning of it, or has the smaller character where they first differ. |
| Clustering.MergeSorted | relay/events.go:351-366 | The loop that extends the last entry computes that pass. |
| Clustering.DropMotion | relay/events.go:367-390 | The loop that drops motion keeps exactly the other entries, in order. |
| Clustering.SortItems | relay/events.go:342-350 | A sorted permutation by stream, kind and start, names in their character order. |
| EventStore.OverlapsIsRightIff | relay/events.go:262-280 | Asking for overlaps is right for every history of edges exactly when the range ends no later than the day after it starts. |
| EventStore.OverlapsIsRight | relay/events.go:111-121 | For such ranges an overlapping interval is always found and nothing else is, midnight included and ends before starts included. |
| EventStore.LongRangeMisses | relay/events.go:273-280 | For every longer range a concrete event is missed. |
| EventStore.ActivationsAreConserved | relay/events.go:76-108 | Per key, accepted activations are closed intervals plus the one that is open. |
| EventStore.ClosedAreBounded | relay/events.go:84-102 | No closed interval is longer than the maximum. |
| EventPairs.ClosedArePairs | relay/events.go:76-108 | For every history of edges the closed intervals are exactly these, in this order: one for each edge that follows an activation of its key, from the activation to the edge, or for ten minutes if the edge comes later or is an activation itself. |
| EventPairs.OpenIsSinceTheLast | relay/events.go:85-107 | A key is open exactly if its last edge is an activation, and since then. |
| EventStore.HitsMeans | relay/events.go:262-271 | An interval that lasts overlaps a range exactly when they share a moment; one that does not, when it is inside. |
| EventStore.NoteLastMeans | relay/events.go:143-152 | A late plate goes to the last interval in the list that began in that second, and to no other. |
| Days.DayIsFromMidnight | relay/rectimeline.go:36-50 | A day is the seconds from local midnight to local midnight. |
| EventStore.SameAnswers | relay/events.go:157-258 | In every run of edges, reads and plate updates, the store on disk with its cache and the store in memory both answer each read with the intervals that the edges accepted until then file on that day, plates apart, and end with the ledger of all accepted edges. |
| EventStore.EventStore.Add | relay/events.go:76-108 | One edge changes the open and closed intervals as specified and files the closed one, with its plate, on its days. |
| EventStore.EventStore.CloseInterval | relay/events.go:111-121 | A closed interval is appended to its start day and its end day, and to no other. |
| EventStore.EventStore.FileInterval | relay/events.go:157-182 | One day's list grows by the interval and what was cached of that day is forgotten. |
| EventStore.EventStore.EventsForDay | relay/events.go:191-258 | Cached or read, a day's list is the intervals filed on it. |
| EventStore.EventStore.Serve | relay/events.go:76-258 | One request changes the ledger as its edge says, and a read is answered from the ledger. |
| EventStore.EventStore.UpdateOpenPlate | relay/events.go:124-153 | Where a late plate is noted; the intervals themselves never change. |
| EventStore.EventStore.Overlaps | relay/events.go:262-271 | The loop over days and intervals answers as specified. |
| Timeline.TimelineFor | relay/rectimeline.go:56-84 | For every history of edges and every range, however many days it spans: the segments are those of the full lookup; and if no event in the range ends before it starts, the marks are, in the order of their starts and each once, the clusters of exactly the closed intervals of the stream that overlap the range, those filed on two days counted once. |
| Timeline.GatherItems | relay/rectimeline.go:69-77 | The loops over the days of a range gather exactly the intervals that overlap it. |
| Timeline.HitIsFiledInRange | relay/events.go:111-121 | An interval that overlaps a range is filed on one of the days of the range, however long that is. |
| Timeline.InOrderIsSensible | relay/events.go:76-108 | If the times of each key's edges never go back, no interval ends before it starts. |
| Timeline.EveryEventIsMarked | relay/rectimeline.go:52-55 | Every event in the range other than motion lies within a mark of its kind, and marks of one kind are more than the gap apart. |
| Janitor.DeleteOrder | relay/recorder.go:241-280 | What is deleted is the shortest beginning of a tier-by-tier, oldest-first permutation of all segments that brings the total to the cap. |
| Janitor.RemainderFits | relay/recorder.go:237-240 | What remains is at most the cap, and one deletion less would leave more. |
| Janitor.KeepAllGoesLast | relay/recorder.go:245-249 | A keep-all segment goes only if every other segment goes. |
| Janitor.RecentIsSparedIff | relay/recorder.go:237-249 | With sizes that are not negative, some segment of the keep-all window is deleted exactly when that window alone is larger than the cap. |
| Janitor.RecentCanGo | relay/recorder.go:245-249 | One recent segment larger than the cap is deleted: the window is not always kept. |
| Janitor.DeletedInOrder | relay/recorder.go:237-240 | A segment goes only after everything of a lower tier and everything older of its own. |
| Janitor.OrderOfSacrifice | relay/recorder.go:237-262 | In terms of event, start and the two cutoffs: an event segment that is still to be kept goes only after everything outside the keep-all window that has no event or is past its time; one past its time only after everything there without an event; a recent one after all of them; and of each sort only after the older ones. |
| Janitor.SplitTiers | relay/recorder.go:250-262 | Every segment lands in exactly one tier. |
| Janitor.TakeUntilFits | relay/recorder.go:268-279 | The nested loops stop at the first point where enough is freed. |
| ThumbCache.StepKeepsInv | relay/recthumb.go:184-238 | Every operation keeps keys distinct, the bytes within 32 MiB, the entries within 512 and each image within 2 MiB. |
| ThumbCache.LookupIsLatest | relay/recthumb.go:196-214 | A lookup returns the latest accepted image for its key, and only for the same file identity. |
| ThumbCache.FoundUntilCrowdedOut | relay/recthumb.go:196-238 | In every run an image of at most 2 MiB that was stored is found by whoever asks with the same file identity, until it is replaced, asked for with another identity, or another image is stored that, with everything used no earlier than it, would exceed 32 MiB or 512 entries. |
| ThumbCache.AskedOtherwiseIsForgotten | relay/recthumb.go:196-214 | In every run, once an image was asked for with another file identity, nobody finds anything under its key until an image of at most 2 MiB is stored there again. |
| ThumbCache.EvictsLeastRecentlyUsed | relay/recthumb.go:221-238 | In every run, what an operation evicts was used before everything it leaves of other keys, for a new image and for one that replaces its key's smaller image. |
| ThumbCache.RunIsRecentFirst | relay/recthumb.go:212 | In every run the list is in the order of last use. |
| ThumbCache.ThumbnailCache.Lookup | relay/recthumb.go:196-214 | Hit, miss and stale identity, with map, list and byte count kept together. |
| ThumbCache.ThumbnailCache.Store | relay/recthumb.go:221-238 | An image is refused, or replaces its key's old one after making room. |
| ThumbCache.ThumbnailCache.MakeRoom | relay/recthumb.go:233-235 | The eviction loop ends, never takes the back of an empty list, and evicts no more than it must. |
| ThumbCache.ThumbnailCache.Remove | relay/recthumb.go:215-220 | One entry leaves map, list and byte count at once. |
| ThumbQueue.QueueIsSound | relay/thumb_variants.go:45-98 | In every interleaving, with the lock free the pending paths are those queued or being converted, none twice, at most 18; each accepted job's channel is closed once, when the job is over. |
| ThumbQueue.GrantedIsOwn | relay/thumb_variants.go:80-97 | A requester is given the channel of a job for its own path that is not over yet. |
| ThumbQueue.RefusedOnlyWhenFull | relay/thumb_variants.go:80-97 | In every run a conversion is refused exactly when sixteen jobs are queued and none under way is for that path; who asks for a path under way shares its channel, and anyone else gets a new one. |
| ThumbQueue.AllGetDone | relay/thumb_variants.go:49-76 | From every state a run can reach, the workers going on is enough for every channel handed out to be closed. |
| ThumbQueue.TakeKeepsInv | relay/thumb_variants.go:49-55 | A worker may take a job before the requester has recorded it. |
| ThumbQueue.ThumbVariantQueue.QueueCardThumb | relay/thumb_variants.go:78-97 | Sharing, refusing or queueing a request, under the lock. |
| ThumbQueue.ThumbVariantQueue.FinishJob | relay/thumb_variants.go:72-75 | A channel that is closed was not closed before. |
| PinLimiter.GuessingIsBounded | relay/hub.go:436-462 | With pruning, any mixture of addresses and asking and recording as separate steps: while at most n connections of an address are in flight, no more wrong guesses than the bound for n fall into one window length between two right ones. |
| PinLimiter.BoundHoldsIff | relay/limiter.go:28-37 | That bound holds in every run with at most n connections in flight exactly when the block outlasts the window; with the defaults it is 7 + n. |
| PinLimiter.BoundIsBest | relay/limiter.go:52-74 | For a block that outlasts the window, a number bounds the wrong guesses in every run exactly when it is at least that bound. |
| PinLimiter.SlidesExactlyWhen | relay/limiter.go:50-51 | No more wrong guesses than the threshold fall into any window length, in every run, exactly when the block outlasts the window, the threshold is at most two and connections of an address come one at a time. |
| PinLimiter.OpenedTogether | relay/hub.go:436-456 | Any number of connections opened together are all let in, and all their wrong guesses are recorded at one moment. |
| PinLimiter.OnlyThoseInFlight | relay/limiter.go:40-49 | While an address is blocked, the wrong guesses recorded for it and the connections still waiting are at most those that were in flight when the block began. |
| PinLimiter.Happens | relay/hub.go:436-462 | Every history of one address that respects clock, blocks and the number in flight is that of some run. |
| PinLimiter.BoundIsReached | relay/limiter.go:64-73 | The bound is reached for every n: the window is fixed by its first guess, and connections in flight are not stopped. |
| PinLimiter.ShortBlockBreaksTheBound | relay/limiter.go:69-73 | A block no longer than the window lets two full bursts into one window. |
| PinLimiter.PruningIsNeverNoticed | relay/limiter.go:83-91 | Pruning never changes whether an address is let in. |
| PinLimiter.PinLimiter.RecordFailure | relay/limiter.go:52-74 | One wrong guess, window, block and pruning included. |
| PinLimiter.PinLimiter.Prune | relay/limiter.go:85-91 | Exactly the records neither blocked nor within their window go. |
| PinLimiter.Door.TakeGuess | relay/hub.go:449-462 | A guess that was waited for is recorded without asking again. |
| PinLimiter.Door.Arrive | relay/hub.go:435-441 | A connection is turned away while its address is blocked, and waited for otherwise. |
| ConnectGate.GateIsSafe | relay/dashboard_assets/wsplayer.js:34-52 | However callbacks nest, the active count is the number of started, unreleased entries and at most four, no entry starts twice, and at rest four are active or the queue is empty. |
| ConnectGate.ReleaseIsIdempotent | relay/dashboard_assets/wsplayer.js:44-50 | Releasing again changes nothing, whatever happened in between. |
| ConnectGate.FirstComeFirstStarted | relay/dashboard_assets/wsplayer.js:36-40 | Entries start in the order in which they were queued. |
| ConnectGate.WSConnectGate.PumpTurn | relay/dashboard_assets/wsplayer.js:35-41 | One turn of the pump starts the head of the queue, once, or ends the pump. |
| ConnectGate.WSConnectGate.ReleaseEntry | relay/dashboard_assets/wsplayer.js:44-50 | A release frees a place or unqueues, and pumps. |
| ConnectGate.WSConnectGate.QueueConnect | relay/dashboard_assets/wsplayer.js:42-52 | A new entry goes to the end of the queue, and pumps. |

## Left out

- GridSystem.CreditIsBounded: byte counters are unbounded; the source's wrap after 2^64 bytes on one connection.
- GridSystem.ReceivesItsOwnStream: the pool of several factories and the transport cache that keeps one across tab changes are not modelled; each factory is on its own.
- GridObjects.GridFactory.NewSocket: a `WebSocket` constructor that throws, a stream name the pattern refuses, and pausing and resuming are not modelled.
- GridObjects.LiveGridServer.Accepts: which stream names are valid is a parameter; a message that is not such JSON, or whose slot does not fit 16 bits, is not modelled.
- GridObjects.LiveGridServer.Handle: one table of feeds stands for the clients of all hubs; which streams have a hub, and what a new client is seeded with, are parameters.
- GridObjects.LiveGridServer.SendStartup: pings, deadlines and write errors, after which the connection ends, are not modelled.
- Callbacks of closing virtual sockets that make or close others at once are separate events of the run, not nested ones; only the connect gate's nesting is modelled as such.
- Ingest.FragMuxer.Write: fMP4 marshalling and the random-access test are functions given by the codec; presentation times are unbounded integers.
- Ingest.StreamEntry.IngestAnnexB: one muxer per hub. A restarted encoder builds a new one on the same hub, and nothing is claimed across that; parameter sets known beforehand from a session description are not modelled.
- JoinProtocol.LateJoinConverges: messages are frames the relay accepts, whose header covers the delta and not more than the payload, with one tile size; the keyframe has at most 65535 tiles and fewer than 2^32 bytes. What a refused or truncated frame and a change of tile size do is stated exactly for one message, what a header that is too short does is shown by a case, and a keyframe with more tiles has its exact condition in `FrameBuffer.KeyFrameDecodes`. Messages of an earlier connection that still arrive after the next one was made are not modelled.
- JoinProtocol.RecoversExactlyWhen: the deltas are those of such frames; the keyframe may be any.
- Viewer.ScreenView.DrawTiles: images are the tiles they were decoded from, and a tile is known by its place in the grid of tiles, which stands for its pixels as long as the tile size does not change; which tiles cannot be decoded is a parameter, decided by the tile alone.
- AgentSession.Session.FanOut: one message reaches one queue in one step; a watcher draining between the two sends of a full queue only spares it a loss.
- AgentSession.Session.HandleFrame: a full broadcast channel makes the publisher wait; the method is called when there is room.
- Recordings.Recorder.SegmentsForExport: file names stand for their start times under a fixed zone offset, without changes to summer time; the directory does not change during one lookup.
- EventStore.EventStore.FileInterval: lines of JSON are the intervals they stand for; failing writes, over-long lines and other writers are not modelled.
- EventStore.EventStore.UpdateOpenPlate: if two kinds of one stream opened at the same moment, either may get the plate, as in the source's map iteration.
- Clustering.ClusterEventItems: the items are sorted in a copy, not in the caller's slice. Of items that end before they start only the computation is stated, and that their order matters.
- Timeline.TimelineFor: whether a segment is still being written, which is asked of the file and the clock. Of a range with an interval that ends before it starts only the recordings are stated.
- PinLimiter.GuessingIsBounded: times are integers of one clock that never runs back, and connections are numbers, each used for one guess.
- PinLimiter.PinLimiter.RecordFailure: the size of the table when pruning frees nothing is not bounded, as in the source.
- ThumbCache.ThumbnailCache.Lookup: reading image files, and comparing files by inode, are values of the file identity.
- ThumbQueue.QueueIsSound: shutdown, and the conversion itself.
- ConnectGate.GateIsSafe: a start callback that throws.
- The walk that gathers segments for the janitor and deletes them (relay/recorder.go:288-372): file system calls.
- `recordTargets` and `reconcile` (relay/recorder.go:117-174) and `routeSnapshotResponse` (relay/hub.go:528-559): single passes whose statements would be easy and repeat the code.
- HTTP handlers, login, alerts, cameras, plate recognition, image scaling and the desktop and mobile shells.
