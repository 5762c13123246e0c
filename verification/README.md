# PulseRTC: a verified model

A Dafny model of the parts of PulseRTC, a WebRTC conferencing server with a selective forwarding unit (SFU),
a multi-node control plane and a browser SDK, whose correctness rests on state that many steps share.

- **Renegotiation.** `Negotiation` runs the SFU participant and the browser negotiator against each other over FIFO
  channels: debounced and coalesced offers, glare with an impolite SFU and a polite browser, failed offers, close.
- **Room ownership and recovery.** `RoomLocator` compares the in-memory and Redis locators; `ClaimInterleaving`
  interleaves the Redis commands of racing claims; `FailureDetector`, `Recovery` and `RecoveryManager` cover missed
  heartbeats, grace periods and takeover.
- **Sessions and node messages.** `Sessions` and `SessionRuns` cover the resume fence; `ClusterMessages` covers message
  validity and deduplication; `RateLimiter` the token buckets.
- **Media path.** `SendQueue` is the bounded drop queue over pooled buffers, `Fanout` the lock-free sink list and
  keyframe limiter, `RoomPubSub` the subscription bookkeeping, `WireFormat` the inter-node datagrams.
- **Quality, scheduling, SDK.** `Quality`, `Hysteresis`, `QualityEngine` and `QualitySpikes` turn counters into
  verdicts, stable statuses and events; `Router` and `RoomScheduling` place rooms; `ParticipantStore` and `ParticipantStoreRuns` match
  browser tracks to publications.

Each module has a value model with a step function, an invariant kept by every step, and theorems over every run.
Where the source updates an object in place there is a class whose methods are proved against that step function.
Times are integers (reals in the rate limiter) passed in by the caller, floats are reals, fresh ids are parameters.

## What does not hold as written or documented

- A failed offer is not retried, so the change it carried stays unsent until the next change (`FailedOfferLosesChange`);
  an answer that cannot be applied ends the negotiation for good (`FailedAnswerSticks`). `QuietMeansConverged` says
  that these are the only ways.
- The resume fence ignores generation zero and accepts generations that were never issued; `RepeatsExactly` says that
  these are the only repeats. Identities that contain a NUL can share a key (`KeysCollideExactly`).
- A live node can lose a room to a mark from a silence that is over (`MarkIsReachable`, `MarkCostsLiveNode`);
  `SafeExactly` says exactly when it cannot.
- A message dated at or after its first receipt can be dispatched twice (`RedeliveryExactly`).
- The comment on thresholds says a zero pair is not evaluated; the penalty follows it, the band does not
  (`ZeroPairStillGrades`). The comment on session recovery says the snapshot reports WARNING; the code leaves GOOD as
  it is (`QualityEngine.Engine.Snapshot`). The model follows the code.
- The comment on the window says a single spike cannot drive a verdict; a large enough one does
  (`SpikeAbsorbedExactly`), and moves the stable status (`OddSampleMovesStatusExactly`, `ShippedLossSpike`).
- Without a packet limit, or with one above 1771, an accepted media packet can be lost to the peer's read buffer
  (`SafePacketLimits`).

## Model

| member | source | states |
|---|---|---|
| `Negotiation.Participant.ChangeTracks` | internal/sfu/core_participant.go:475-567 | adding or dropping a track on an open participant makes a change and leaves a debounced negotiation behind it; on a closed one nothing happens |
| `Negotiation.Participant.OnTimer` | internal/sfu/core_participant.go:215-275 | the debounce timer offers the newest state when the SFU is stable and otherwise asks for another round after the answer |
| `Negotiation.Participant.ReceiveOffer` | internal/sfu/core_participant.go:121-158 | a browser offer that collides with an outstanding SFU offer is ignored (the SFU is impolite); any other is answered |
| `Negotiation.Participant.ReceiveAnswer` | internal/sfu/core_participant.go:160-181 | an applied answer returns the SFU to stable and starts the coalesced negotiation if one was asked for; one that cannot be applied clears nothing; one nobody waits for changes nothing |
| `Negotiation.Participant.Close` | internal/sfu/core_participant.go:681-695 | an open participant is closed with its timer stopped and nothing else changed; closing again changes nothing |
| `Negotiation.CloseIsFinal` | internal/sfu/core_participant.go:681-695 | a close at any point of any run closes, stops the timer and leaves every other field and both channels as they are, and whatever follows nothing new is sent to the browser |
| `Negotiation.Negotiator.Receive` | sdk/src/negotiator.ts:52-82 | the browser rolls back its own offer for a colliding one (it is polite), answers offers and applies answers |
| `Negotiation.Negotiator.Fire` | sdk/src/negotiator.ts:38-50 | the browser offers its newest state when it is stable and has a change |
| `Negotiation.RunKeepsInv` | internal/sfu/core_participant.go:121-281 | the two-party protocol invariant holds in every reachable state of SFU and browser over FIFO channels |
| `Negotiation.AppliedAnswersMatch` | internal/sfu/core_participant.go:121-181 | in every run an answer about to be applied, on either side, answers the receiver's own outstanding offer, and an offer the SFU is about to accept has not been rolled back |
| `Negotiation.OfferIdsAreFresh` | internal/sfu/core_participant.go:253-275 | offer ids are never used again: nothing outstanding or in the network, at any point of a run, refers to an offer made later in it |
| `Negotiation.OneNegotiationInFlight` | internal/sfu/core_participant.go:238-275 | in every run exactly one message of the SFU's own negotiation is in the network while its offer is outstanding, that offer or its answer and never both, and none while it is stable or after its answer failed to apply |
| `Negotiation.NoChangeForgotten` | internal/sfu/core_participant.go:215-251 | in every run a change not yet offered has an armed timer, the negotiate-again flag, or a failed offer behind it; the flag is only up while an answer is awaited |
| `Negotiation.QuietMeansConverged` | internal/sfu/core_participant.go:160-281 | with empty channels and no timer the two sides hold each other's newest state exactly when no offer for an unsent change has failed since the last one sent and no answer has failed to apply |
| `Negotiation.InternalStepLowersRank` | internal/sfu/core_participant.go:121-281 | every protocol step that is not a new application change lowers a rank, so glare cannot go on for ever |
| `Negotiation.NegotiationConverges` | internal/sfu/core_participant.go:121-281 | after any history, once changes stop, the protocol takes at most 24 more steps in whatever order and then the two sides agree exactly under that condition |
| `Negotiation.ConvergesWithoutErrors` | internal/sfu/core_participant.go:121-281 | in every run in which no offer and no answer fails the two sides end with each other's newest state |
| `Negotiation.ChangesReachTheOtherSide` | internal/sfu/core_participant.go:121-281 | without errors a change on an open participant, after any history, has reached the other side whenever the protocol comes to rest after it |
| `Negotiation.SilentForGood` | internal/sfu/core_participant.go:160-168 | from any reachable state with the SFU closed, or with an answer that failed to apply, no run makes it send anything, take a browser offer or leave its signaling state |
| `Negotiation.FailedAnswerSticks` | internal/sfu/core_participant.go:160-168 | one answer that cannot be applied ends the negotiation: whatever follows, the offer stays outstanding, nothing is sent and the sides never converge |
| `Negotiation.FailedOfferLosesChange` | internal/sfu/core_participant.go:252-281 | a failed CreateOffer is not retried: a two-step run after which nothing is pending and the browser is behind |
| `RoomLocator.InMemoryRoomLocator.Ownership` | internal/cluster/routing_room_locator.go:105-114 | reports the owner and generation of a room, or that it has none |
| `RoomLocator.InMemoryRoomLocator.ClaimOwner` | internal/cluster/routing_room_locator.go:146-160 | the first claim wins; a later one is told the owner and changes nothing; a repeated claim by the owner does not count as a new claim |
| `RoomLocator.InMemoryRoomLocator.ReleaseOwner` | internal/cluster/routing_room_locator.go:175-184 | only the owner can release, and the release drops the generation with the owner |
| `RoomLocator.InMemoryRoomLocator.RecoverOwner` | internal/cluster/routing_room_locator.go:118-137 | ownership moves only from the named old owner, and the generation then grows by one; the other three outcomes change nothing |
| `RoomLocator.RedisRoomLocator.CompareDelete` | internal/cluster/state_redis_client.go:25-30 | the script deletes the owner key exactly when it still holds the caller and leaves the generation key |
| `RoomLocator.RedisRoomLocator.RecoverScript` | internal/cluster/state_redis_client.go:42-51 | the script reads, tests and writes the two keys in one step and answers with its code and generation |
| `RoomLocator.RedisRoomLocator.ClaimOwner` | internal/cluster/state_redis.go:252-274 | uninterrupted it is the composed SET NX, GET, SET NX claim; with any commands of other clients between its own, a free room is won, a winner owns the room and a loser is told the owner, or nobody only if others came in between |
| `RoomLocator.RedisRoomLocator.Ownership` | internal/cluster/state_redis.go:202-216 | uninterrupted it is the composed lookup; with others in between the owner is the one found first |
| `RoomLocator.RedisRoomLocator.ReleaseOwner` | internal/cluster/state_redis.go:288-293 | releases exactly when the script deleted |
| `RoomLocator.RedisRoomLocator.RecoverOwner` | internal/cluster/state_redis.go:219-237 | the script's decision stands whatever other clients do; they can only change which owner a conflict names |
| `RoomLocator.RedisDoesTheSame` | internal/cluster/state_redis.go:202-293 | composed from their commands with nothing in between, the Redis claim, recovery and lookup equal the in-memory ones on every table, and the release differs only in leaving the generation |
| `RoomLocator.BackendsAgree` | internal/cluster/state_redis.go:202-293 | after every history of claims, releases, recoveries and lookups the in-memory operations and the Redis ones built from commands have the same owners and gave the same answers; the in-memory generation counts recoveries since the last release, the Redis one all of them |
| `RoomLocator.GenerationsCompared` | internal/cluster/routing_room_locator.go:118-184 | the Redis generation is never smaller, and the two are equal until the room's first release |
| `ClaimInterleaving.ClaimsBalanceReleases` | internal/cluster/state_redis.go:252-293 | over every interleaving of the SETNX, GET and retry steps of any number of claims with releases and recoveries, successful claims minus successful releases is one if the room is owned and zero if not |
| `ClaimInterleaving.UninterruptedIsClaim` | internal/cluster/state_redis.go:252-274 | the commands of one call with nothing in between come to the composed claim |
| `ClaimInterleaving.OneWinnerUntilReleased` | internal/cluster/state_redis.go:252-274 | until a room is first released, of all the racing claims at most one has won |
| `ClaimInterleaving.LosersLearnTheWinner` | internal/cluster/state_redis.go:252-274 | however many claims race, as soon as one has returned exactly one has won, and everyone who has returned was told its node |
| `ClaimInterleaving.UndisturbedCallTakesEffect` | internal/cluster/state_redis.go:252-274 | with nobody in between, a claim begun at any point has its whole effect and answer after two commands |
| `ClaimInterleaving.ReleasesAndRecoveriesTakeEffect` | internal/cluster/state_redis.go:219-293 | a release frees the room exactly if the releasing node owns it; a recovery moves it one generation up exactly if the old owner still owns it and is not the new one |
| `ClaimInterleaving.GenerationsIncrease` | internal/cluster/state_redis_client.go:42-51 | the generations handed out by successful recoveries of a room strictly increase along every run, also across a release and a new claim |
| `FailureDetector.Detector.Scan` | internal/cluster/recovery_failure_detector.go:115-190 | a scan over the registry reports exactly the nodes that became stale, each once, and changes nothing when the backend is not trusted |
| `FailureDetector.Detector.IsStale` | internal/cluster/recovery_failure_detector.go:210-225 | a node counts as stale exactly when it is marked, unregistered or OFFLINE |
| `FailureDetector.ScanJudgesEachNode` | internal/cluster/recovery_failure_detector.go:115-190 | the loop over all nodes judges each node on its own sighting and leaves the marks of the others alone |
| `FailureDetector.MissedExactly` | internal/cluster/recovery_failure_detector.go:145-163 | a node is missed exactly when it is listed, is not the observer, and is OFFLINE or silent for longer than the window |
| `FailureDetector.FirstMissCorrect` | internal/cluster/recovery_failure_detector.go:153-169 | the remembered first miss is the earliest miss since the last healthy sighting |
| `FailureDetector.MarkedExactlyAfterGrace` | internal/cluster/recovery_failure_detector.go:115-190 | after any series of scans, trusted or not, a node is marked exactly when two misses at least the grace period apart were seen with no healthy sighting from the first on |
| `Recovery.ScanRegistryIsScan` | internal/cluster/recovery_failure_detector.go:115-190 | the scan used in the interleaving model is the sequential scan over any listing of the registry |
| `Recovery.LiveNodeKeepsRooms` | internal/cluster/recovery_manager.go:135-227 | a node that stays registered, heartbeating and not OFFLINE, unmarked by others and with no other node's recovery of the room past its stale check, keeps the room until it releases it, in every interleaving of ticks, scans, recovery steps, claims and releases |
| `Recovery.ScanClearsLive` | internal/cluster/recovery_failure_detector.go:148-163 | a scan that sees the node live takes the mark off it |
| `Recovery.DeadOwnerLosesExactly` | internal/cluster/recovery_manager.go:135-227 | elected and undisturbed, a recovery moves the room to its own node, one generation up, exactly when that node has the owner marked or the owner is unregistered or OFFLINE; otherwise no room changes |
| `Recovery.UnregisteringCostsTheRoom` | internal/cluster/recovery_manager.go:135-227 | a node that unregisters loses its room to the next undisturbed recovery |
| `Recovery.ReleasedGoesToTheNext` | internal/cluster/routing_room_locator.go:146-184 | the next claim gets a room exactly if its owner released it |
| `Recovery.MarkCostsLiveNode` | internal/cluster/recovery_manager.go:158-195 | a mark from a silence that is over lets the marking node take any of its rooms in five steps although it is live throughout |
| `Recovery.MarkIsReachable` | internal/cluster/recovery_failure_detector.go:145-190 | from an empty cluster seven steps lead to a live node that is still marked and owns a room, for any timeout and grace period |
| `Recovery.RunKeepsOneJob` | internal/cluster/recovery_manager.go:143-156 | in every run a node has at most one unfinished recovery of a room |
| `Recovery.SafeExactly` | internal/cluster/recovery_manager.go:135-227 | whatever recoveries are under way, a live owner is sure of its room in every run exactly when no other node has it marked and no other node's recovery of that room is past the stale check |
| `RecoveryManager.Manager.RecoverRoom` | internal/cluster/recovery_manager.go:135-227 | an uninterrupted call does what the interleaving model's four steps do with nothing in between, and leaves the in-progress set as it was |
| `RecoveryManager.Manager.RecoverNode` | internal/cluster/recovery_manager.go:67-132 | every room of the stale node for which this node is elected and no recovery is running changes hands with its generation one up, no other room changes, and the call reports success exactly when no routing decision failed; it gets there exactly when recovery is enabled, the state is usable and the node is stale and another one |
| `RecoveryManager.FinishIsStraight` | internal/cluster/recovery_manager.go:135-227 | the step-by-step job comes to one decision: gone, owned here, owner alive, no target, deferred or swapped |
| `RecoveryManager.RecoveryDecides` | internal/cluster/recovery_manager.go:135-227 | which of the six outcomes a recovery has, exactly, by the room's owner, whether that owner is marked, unregistered or OFFLINE, and the router's answer; the room moves in one of them |
| `RecoveryManager.RecoveringAgainIsIdle` | internal/cluster/recovery_manager.go:20-23 | a successful recovery raises the generation by one; recovering the room again finds it owned here and leaves the generation alone |
| `Sessions.KeyIsInjective` | internal/signaling/session.go:158 | identities without a NUL give distinct keys for distinct identity and room |
| `Sessions.KeysCollideExactly` | internal/signaling/session.go:158 | two identities can share an index entry exactly when they are equal or one continues the other past a NUL |
| `Sessions.SessionRegistry.Open` | internal/signaling/session.go:209-269 | a fresh open takes the identity's primary entry and issues generation one; the session it supersedes stays only under its own physical id |
| `Sessions.SessionRegistry.OpenResuming` | internal/signaling/session.go:209-269 | a resume is accepted exactly for the identity's live session with its session id and a generation that is zero or not older; it moves to the new physical id with the generation one up, and the old socket is kicked exactly if it was connected; every other claim is refused as stale and changes nothing |
| `Sessions.SessionRegistry.Park` | internal/signaling/session.go:274-284 | only a live physical id can be marked recovering |
| `Sessions.SessionRegistry.CloseSession` | internal/signaling/session.go:299-312 | closing forgets the physical session and unlinks the primary entry only if it points to it |
| `Sessions.SessionRegistry.SweepExpired` | internal/signaling/session.go:316-338 | the sweep removes exactly the sessions parked longer than the timeout, with their own primary entries, and counts them |
| `SessionRuns.ResumesAtMostOnce` | internal/signaling/session.go:209-269 | in every run each issued session and generation pair is accepted at most once, and once accepted is never acceptable again |
| `SessionRuns.RepeatsExactly` | internal/signaling/session.go:216-223 | in every reachable state, a claim just accepted can be accepted again in some later run exactly when its generation was zero or above the session's |
| `SessionRuns.ClosedNeverResumes` | internal/signaling/session.go:299-312 | a session closed at any point of any run is never resumable afterwards |
| `SessionRuns.SweptNeverResumes` | internal/signaling/session.go:314-338 | a session removed by a sweep at any point of any run is never resumable afterwards |
| `SessionRuns.SupersededNeverResumes` | internal/signaling/session.go:209-269 | a session replaced by a fresh open is never resumable afterwards |
| `SessionRuns.GonePhysIsInert` | internal/signaling/session.go:274-312 | a physical id that has been taken over or closed stays gone, and parking or closing it changes nothing |
| `SessionRuns.CloseKeepsLinksExactly` | internal/signaling/session.go:299-312 | a close keeps every primary entry pointing at a live session exactly when it is called with the session's own identity and room, or the session is not the primary |
| `SessionRuns.PrimaryIsOwnLiveSession` | internal/signaling/session.go:209-338 | in every proper run each primary entry points to a live session of that same identity and room |
| `SessionRuns.StepKicksExactly` | internal/signaling/session.go:209-269 | in every reachable state a reconnect kicks exactly the sockets that were connected before it and are gone after it, and no other step kicks anyone |
| `SessionRuns.KickedAreReplaced` | internal/signaling/session.go:209-269 | along every run the kicked sockets are exactly the ones some reconnect replaced, and they are gone |
| `SessionRuns.NewestPairResumes` | internal/signaling/session.go:209-269 | the pair issued last does resume: right after a fresh open or an accepted resume its claim is accepted |
| `SessionRuns.ParkedResumesUntilSwept` | internal/signaling/session.go:274-338 | a dropped connection stays resumable, and a sweep ends that exactly when the drop was before its cutoff |
| `ClusterMessages.Handler.constructor` | internal/cluster/cluster.go:136-163 | whatever is configured, ids are remembered exactly as long as messages are accepted, for a positive time, which is what the at-most-once results rest on |
| `ClusterMessages.Handler.MarkSeen` | internal/cluster/noderpc_dedup.go:36-45 | an id is a duplicate exactly while it is remembered; a duplicate does not extend its own memory |
| `ClusterMessages.Handler.Receive` | internal/cluster/noderpc_handler.go:29-54 | each answer exactly when the source gives it: invalid, too large, outside the window, wrong target, duplicate while remembered, and otherwise dispatched by kind and remembered; nothing else is remembered |
| `ClusterMessages.Handler.Sweep` | internal/cluster/noderpc_dedup.go:47-56 | the sweep loop removes exactly the expired ids |
| `ClusterMessages.FirstDeliveryIsDispatched` | internal/cluster/noderpc_handler.go:29-54 | in any run a well-formed message addressed here is dispatched the first time it is delivered |
| `ClusterMessages.SecondDispatchNeedsStall` | internal/cluster/noderpc_handler.go:29-54 | if a message is dispatched twice, the second call stalled between its two clock readings at least as long as the message was old at its first marking |
| `ClusterMessages.AtMostOnce` | internal/cluster/noderpc_handler.go:29-54 | with that wiring and one clock reading per call, from any cache, a message sent strictly before its first marking is dispatched at most once in any run of deliveries, retries and sweeps |
| `ClusterMessages.RedeliveryExactly` | internal/cluster/noderpc_message.go:87-100 | a dispatched message can be dispatched again exactly when its timestamp is not before its first marking |
| `ClusterMessages.SweepsAreInvisible` | internal/cluster/noderpc_dedup.go:36-56 | removing every sweep from a run changes no delivery's outcome |
| `RateLimiter.Limiter.Allow` | internal/auth/ratelimit.go:38-61 | one request refills its key's bucket, spends a token if there is one and touches no other key |
| `RateLimiter.Limiter.Sweep` | internal/auth/ratelimit.go:65-74 | the sweep loop removes exactly the idle buckets |
| `RateLimiter.GrantedInInterval` | internal/auth/ratelimit.go:38-61 | from any sound state, over any run with patient sweeps, a key is granted at most burst + rate * T requests in any interval of length T |
| `RateLimiter.GrantsBounded` | internal/auth/ratelimit.go:28-74 | for a limiter as constructed and sweeps no more eager than the window, every key and every interval: at most perWindow + rate * T grants |
| `RateLimiter.PacedNeverRefused` | internal/auth/ratelimit.go:38-61 | from any sound state a key that has a token and spaces its requests by the time one takes to refill is granted every one of them, whatever other keys do and under patient sweeps |
| `RateLimiter.KeepingTheRateIsEnough` | internal/auth/ratelimit.go:28-61 | a limiter as constructed never refuses a key that keeps to the configured rate, and refuses nobody if it was given no limit |
| `RateLimiter.PatientSweepsInvisible` | internal/auth/middleware.go:55-73 | removing the sweeps from a run changes no verdict when each waits at least until a bucket has refilled |
| `RateLimiter.SweepInvisibleExactly` | internal/auth/ratelimit.go:65-74 | a sweep changes no key's level in any sound state exactly when its idle time is enough to refill a bucket |
| `SendQueue.Pool.GetBuf` | internal/sfu/sendqueue.go:23-30 | the buffer handed out leaves the free list, or is new, and holds the packet, whole up to 1500 bytes; no other free buffer changes |
| `SendQueue.BufferedQueue.Push` | internal/sfu/sendqueue.go:68-100 | a push on a full video queue drops the backlog and flags a resync, on a full audio queue the oldest packet; refused and dropped buffers are back in the pool, no buffer of any queue on the pool is overwritten, and each buffer stays in exactly one of pool, queue and consumer |
| `SendQueue.BufferedQueue.DropOnOverflow` | internal/sfu/sendqueue.go:78-92 | what leaves the ring goes back to the pool, nothing else moves |
| `SendQueue.BufferedQueue.Pop` | internal/sfu/sendqueue.go:106-120 | a pop hands the oldest buffer and the resync flag to the consumer and clears the flag; each buffer of the queues on the pool stays in exactly one place |
| `SendQueue.BufferedQueue.Release` | internal/sfu/sendqueue.go:32-35 | a released buffer goes from the consumer back to the pool |
| `SendQueue.BufferedQueue.Close` | internal/sfu/sendqueue.go:122-133 | the first close returns exactly the queued buffers to the pool, a second none |
| `SendQueue.QueueIsFaithful` | internal/sfu/sendqueue.go:57-133 | in every run the queue is within its capacity and a contiguous suffix of the accepted packets; accepted = popped + dropped + queued + discarded; deliveries are accepted packets in order, and a video delivery is flagged exactly when packets were skipped before it |
| `SendQueue.AcceptedAreThePushes` | internal/sfu/sendqueue.go:68-133 | along every run the accepted packets are exactly the ones pushed before the first close, in that order and whole up to 1500 bytes |
| `SendQueue.StepEffects` | internal/sfu/sendqueue.go:68-133 | in every reachable state a pop delivers the oldest queued packet, a push drops only when the queue is full, audio one packet and video all, and the first close discards what is queued |
| `SendQueue.RunWriteLoop` | internal/sfu/subscription.go:20-46 | the write loop ends at the first closed pipe or when its error budget is spent and not before |
| `Fanout.ListIsAttachedNotDetached` | internal/sfu/publication.go:94-127 | under every interleaving of the load and compare-and-swap steps the sink list is exactly the sinks attached and not yet detached, in attach order, each once: no update is lost |
| `Fanout.DetachIsIdempotent` | internal/sfu/publication.go:112-126 | a second detach changes nothing |
| `Fanout.AttachFailsOnlyToAnother` | internal/sfu/publication.go:94-110 | in every interleaving the swap of an attach puts its sink last and finishes, or, exactly when another attach or detach took effect since its load, changes nothing and starts over |
| `Fanout.DetachFailsOnlyToAnother` | internal/sfu/publication.go:112-126 | likewise the swap of a detach takes exactly its own sink out |
| `Fanout.UndisturbedCallsTakeEffect` | internal/sfu/publication.go:94-127 | alone, an attach puts its sink last in three steps and its detach takes exactly that entry out in three |
| `Fanout.KeyframesAreSpaced` | internal/sfu/publication.go:140-168 | however many callers race, keyframe requests that win the compare-and-swap are at least one second apart |
| `Fanout.RequestLosesOnlyToAnother` | internal/sfu/publication.go:140-168 | in every interleaving a keyframe request is sent exactly when it comes a second or more after the last one sent and no other won since it looked |
| `RoomPubSub.RoomState.OnPublicationAdded` | internal/sfu/core_room.go:160-166 | the loop adds exactly the members other than the publisher who may subscribe, have not opted out and whose track can be added, and nobody loses a subscription |
| `RoomPubSub.RoomState.OnPublicationRemoved` | internal/sfu/core_room.go:168-176 | the loop ends exactly the subscriptions to the publication |
| `RoomPubSub.RoomState.SubscribeTo` | internal/sfu/core_participant.go:423-448 | an explicit subscribe is accepted exactly for a member with permission and a publication of this room by someone else; it then undoes an opt-out and, if the track can be added, subscribes; otherwise nothing changes |
| `RoomPubSub.RoomState.UnsubscribeFrom` | internal/sfu/core_participant.go:450-457 | an explicit unsubscribe ends the subscription and is remembered |
| `RoomPubSub.OfferOneFirst` | internal/sfu/core_room.go:160-166 | offering a publication to a set of participants can be done one at a time in any order |
| `RoomPubSub.RoomBookkeeping` | internal/sfu/core_room.go:40-199 | after any sequence of joins, publishes, subscribes, failures and leaves every subscription targets a live publication of the same room owned by someone else, nobody is subscribed whose last explicit act was to unsubscribe, and made minus removed is the number of live subscriptions |
| `RoomPubSub.NewPublicationIsServed` | internal/sfu/core_room.go:160-166 | publishing, locally or mirrored, subscribes exactly the members who may subscribe, do not publish it, have not opted out of it and whose track could be added |
| `RoomPubSub.ExplicitIsServed` | internal/sfu/core_participant.go:423-448 | a subscribe is accepted exactly with permission and for a publication of someone else; it then undoes an opt-out and, if the track can be added, subscribes; nothing else changes |
| `RoomPubSub.BootstrapServes` | internal/sfu/core_participant.go:592-600 | a joiner's bootstrap subscribes it to exactly the local publications of others that it may have |
| `RoomPubSub.WithdrawnIsGone` | internal/sfu/core_room.go:168-176 | a withdrawn publication is gone for everyone who had it, and nothing else changes |
| `RoomPubSub.OtherActs` | internal/sfu/core_room.go:40-199 | what joins, leaves, unsubscribes and failures change, exactly, and what the refused acts leave alone |
| `RoomPubSub.EveryoneIsServed` | internal/sfu/core_room.go:40-199 | after any history without failures a bootstrapped member is subscribed to a local publication of someone else exactly when it may subscribe and has not opted out of it |
| `ParticipantStore.AnnounceKeepsInv` | sdk/src/participants.ts:404-410 | announcing a publication keeps the matching maximal and neither gains nor loses a track |
| `ParticipantStore.AttachKeepsInv` | sdk/src/participants.ts:419-433 | an arriving track is held afterwards in exactly one place, every track held before still is, and the matching stays maximal |
| `ParticipantStore.AttachPlaces` | sdk/src/participants.ts:419-446 | an arriving track goes to the free publication its id names, failing that to the first free one of its kind, and no other publication changes |
| `ParticipantStore.AttachBuffers` | sdk/src/participants.ts:419-433 | a track no free publication can take waits at the end of the buffer |
| `ParticipantStore.AnnouncePlaces` | sdk/src/participants.ts:404-410 | an announced publication is there afterwards with its mute state; a new one comes last with the first waiting track of its kind, a known one keeps kind and track |
| `ParticipantStore.OtherPlaces` | sdk/src/participants.ts:344-403 | what a retraction, a clearing of tracks, a departure and an arrival leave of a participant, exactly |
| `ParticipantStore.RetractKeepsInv` | sdk/src/participants.ts:398-403 | retracting a publication takes away exactly the track on it |
| `ParticipantStore.KeepListedKeepsInv` | sdk/src/participants.ts:349-352 | dropping the publications a snapshot omits keeps the matching maximal and takes away exactly the tracks on them |
| `ParticipantStore.ReconcileIsExact` | sdk/src/participants.ts:344-363 | after a snapshot a participant has exactly the listed publications, each muted as last listed |
| `ParticipantStore.ReconcileIsIdempotent` | sdk/src/participants.ts:344-363 | applying the same snapshot entry again changes nothing, mute states and matched tracks included |
| `ParticipantStoreRuns.Store.TakeBufferedTrack` | sdk/src/participants.ts:448-456 | takes the first buffered track of the kind out of the stream's buffer and nothing else |
| `ParticipantStoreRuns.Store.ApplyPublicationEvent` | sdk/src/participants.ts:394-412 | changes only the named participant, and nobody for the local identity |
| `ParticipantStoreRuns.Store.AttachTrack` | sdk/src/participants.ts:419-433 | matches the track or buffers it, and says which |
| `ParticipantStoreRuns.Store.DropTracks` | sdk/src/participants.ts:372-377 | every publication loses its track, every buffer is emptied, nobody leaves |
| `ParticipantStoreRuns.Store.ApplyParticipantLeft` | sdk/src/participants.ts:388-392 | removes the participant and keeps buffered tracks |
| `ParticipantStoreRuns.Store.ApplyRoomJoined` | sdk/src/participants.ts:328-364 | membership becomes exactly the message's, every slot is reconciled with it, and the reported additions and removals are the exact set differences |
| `ParticipantStoreRuns.DesiredExactly` | sdk/src/participants.ts:328-343 | a room_joined names exactly the participants of its member list and its snapshot, with the tracks of a participant's last snapshot entry |
| `ParticipantStoreRuns.MatchingIsMaximal` | sdk/src/participants.ts:328-464 | in every reachable state no buffered track waits while a publication of its stream and kind is free, and no track is in two places |
| `ParticipantStoreRuns.StepKeepsTrack` | sdk/src/participants.ts:328-464 | in every reachable state a held track is still held after a step exactly when the step does not retract or omit its publication, remove its participant while it is attached, or clear all tracks |
| `ParticipantStoreRuns.ArrivedTrackStays` | sdk/src/participants.ts:328-464 | a track that arrives in any reachable state is held by its participant at the end of any further run exactly when no step of that run took it away |
| `ParticipantStoreRuns.RoomJoinedIsIdempotent` | sdk/src/participants.ts:328-364 | in every reachable state, a room_joined makes presence, listed publications and their mute states exact, and a repeated one changes no slot |
| `ParticipantStoreRuns.StoreFollowsEvents` | sdk/src/participants.ts:328-412 | in every run a participant is present, and a publication listed, exactly as the events say: announcements and joins add, retractions and departures remove, a room_joined replaces |
| `Quality.Worst` | internal/quality/scoring_status.go:31-42 | the result has the greater rank, with no verdict below every verdict |
| `Quality.Derive` | internal/quality/sample.go:104-175 | loss and frame drop are always percentages and bitrates never negative, whatever the counters do; data is reported exactly when there is a connection state or some metric other than frame drop |
| `Quality.NoLossExactly` | internal/quality/sample.go:134-158 | a reported loss or frame drop is zero exactly when its counter did not move |
| `Quality.LossIsPercent` | internal/quality/sample.go:137-146 | loss is reported exactly when both packet counters were reported twice without going back and time passed, as the percentage lost of what they grew by |
| `Quality.FrameDropIsPercent` | internal/quality/sample.go:148-157 | likewise for frame drop and the frame counters |
| `Quality.BitrateIsBitsPerSecond` | internal/quality/sample.go:124-132 | the bitrate is the bits received per second, or the bits sent where nothing can be said of the received ones |
| `Quality.RestIsCopied` | internal/quality/sample.go:104-175 | the metrics that are not derived are copied, and a first sample derives nothing |
| `Quality.Avg` | internal/quality/history.go:54-67 | the loop gives the mean over the samples that report the metric, and nothing if none does |
| `Quality.Window.Push` | internal/quality/history.go:26-31 | the buffer is the newest samples up to the window size |
| `Quality.Window.MeanOf` | internal/quality/history.go:35-52 | rates are averaged, states come from the newest sample |
| `Quality.PenaltyRamps` | internal/quality/scoring_score.go:51-76 | with ordered thresholds a penalty is zero up to the warning line, linear between the lines and the maximum from the poor line on, and mirrored where lower is worse |
| `Quality.PenaltyGrows` | internal/quality/scoring_score.go:27-76 | penalties and bands never fall as a metric gets worse, for any thresholds |
| `Quality.Named` | internal/quality/analyzer.go:70-81 | a problem is named exactly when some rule for it is past its warning line |
| `Quality.EvalRules` | internal/quality/analyzer.go:55-96 | the one-pass loop computes score, problems and worst band together |
| `Quality.MediaProblemsExactly` | internal/quality/analyzer.go:14-53 | each problem of a media stream is named exactly when its metric is at or past a line of its own thresholds, the video ones for video only |
| `Quality.ConnectionProblemsExactly` | internal/quality/analyzer.go:98-125 | likewise for a connection whose transport is up |
| `Quality.PoorExactly` | internal/quality/analyzer.go:55-96 | a verdict is POOR exactly when some metric is at its poor line or the score is below the score lines, and the score is a hundred less the costs, rounded and not below zero |
| `Quality.VerdictsWithoutRules` | internal/quality/analyzer.go:14-113 | scores are between 0 and 100; there is no verdict exactly without data or with the track disabled; a connection is called unstable exactly when its transport is down, and is then POOR |
| `Quality.ZeroPairStillGrades` | internal/quality/scoring_score.go:27-76 | a zero threshold pair costs nothing, but the metric is graded good exactly when it is absent or on the good side of zero |
| `Quality.MeansCompare` | internal/quality/history.go:35-67 | of two windows that report the same metrics, the pointwise no worse one has the no worse mean |
| `Quality.WorseInputsNeverHelp` | internal/quality/analyzer.go:14-125 | a pointwise no worse window gets a score, a status and a list of problems that are no worse, for any configuration |
| `Quality.GoodMeansNoProblem` | internal/quality/analyzer.go:55-96 | no problem is named exactly when no metric is past its warning line, and then the score is full; where a full score counts as GOOD, GOOD and no problem are the same |
| `Quality.BadVerdictsAreExplained` | internal/quality/analyzer.go:14-125 | every WARNING or POOR verdict names a problem exactly when a full score counts as GOOD in the configuration |
| `Quality.OneBadMetricOrTwo` | internal/quality/scoring_score.go:9-24 | with the shipped configuration one bad metric never makes the score POOR on its own and any two metrics past their poor lines always do |
| `Quality.SpikeAbsorbedExactly` | internal/quality/history.go:11-13 | whatever the other samples report, and for metrics of either direction, one sample leaves the averaged metric good exactly when it is on the good side of the reporting count times the warning line less the others' total |
| `QualitySpikes.StreamIsWatched` | internal/quality/engine.go:62-108 | an engine stream's stabilizer and window are the fold of verdicts and the newest rates of the samples it was fed |
| `QualitySpikes.OddSampleMovesStatusExactly` | internal/quality/history.go:11-13 | in a stream settled on one verdict, one odd sample of any kind ever moves the stable status exactly when the full window with it is judged differently and is at least as long as the count the change needs |
| `QualitySpikes.ShippedLossSpike` | internal/quality/scoring_thresholds.go:63-93 | with the shipped configuration one sample of packet loss in a loss-free media stream moves the stable status exactly when it is at least ten percent |
| `Hysteresis.Stabilizer.ObserveOne` | internal/quality/scoring_hysteresis.go:27-57 | one verdict moves the three fields as the streak rule says and reports a change exactly when the status moved |
| `Hysteresis.ChangesExactlyOnSustained` | internal/quality/scoring_hysteresis.go:27-57 | at every sample of every run the status changes to v exactly when v differs from it and was the verdict for the required count of consecutive samples since the last change |
| `Hysteresis.SinceIsSuffix` | internal/quality/scoring_hysteresis.go:27-57 | what the rule looks back over is a suffix of the verdicts |
| `Hysteresis.ChangesAreRare` | internal/quality/scoring_hysteresis.go:3-8 | n samples give at most n / min(degrade, recover) changes |
| `Hysteresis.SustainedVerdictWins` | internal/quality/scoring_hysteresis.go:3-8 | from any state, a verdict repeated the required number of times becomes the status |
| `Hysteresis.CountsByDirection` | internal/quality/scoring_hysteresis.go:27-57 | from a settled status n equal verdicts move it exactly when n reaches the recover count for a change for the better and the degrade count for any other |
| `QualityEngine.MakeEvent` | internal/quality/events.go:28-53 | degraded means a loss of rank between known statuses, recovered a return to GOOD from a worse one, and a first verdict is neither |
| `QualityEngine.Overall` | internal/quality/engine.go:233-250 | the call is POOR exactly when the connection or some audio is, GOOD exactly when something is good and nothing is worse, and without verdict exactly when nothing has one; POOR video alone gives WARNING |
| `QualityEngine.Engine.Ingest` | internal/quality/engine.go:62-108 | one sample changes its own stream only, creating it if needed, and returns the event it caused |
| `QualityEngine.Engine.Forget` | internal/quality/engine.go:111-120 | removes exactly the participant's streams |
| `QualityEngine.Engine.Prune` | internal/quality/engine.go:124-133 | removes exactly the streams not updated since the cutoff |
| `QualityEngine.Engine.Snapshot` | internal/quality/engine.go:162-208 | the legs are exactly the participant's media streams, each once; connection and timeline are a connection stream's if it has one; during session recovery the overall status is GOOD or WARNING, otherwise it is missing exactly when nothing has a verdict |
| `QualityEngine.EventsTellTheStory` | internal/quality/engine.go:62-133 | in every run the events of a retained stream chain from UNKNOWN, each moving, to the status its snapshot shows, and its timeline is the newest of them up to the history size |
| `QualityEngine.StepTouchesExactly` | internal/quality/engine.go:62-133 | a sample creates or updates its own stream, forgetting takes exactly the participant's, pruning exactly those not updated since, and what stays is unchanged |
| `QualityEngine.EventsNameTheirCause` | internal/quality/events.go:28-53 | where a full score counts as GOOD, an event names a problem exactly when it does not report GOOD, and one to UNKNOWN names the disabled track |
| `Router.Select` | internal/cluster/routing_roomrouter.go:56-85 | nothing is chosen exactly when there is no candidate; otherwise the local node if it is within the margin of the least loaded, else the least loaded by score and id |
| `Router.SortLoads` | internal/cluster/routing_roomrouter.go:64-71 | the sort is a sorted permutation of the candidates |
| `Router.ChoiceIgnoresOrder` | internal/cluster/routing_roomrouter.go:56-85 | with distinct node ids two orders of the same candidates lead to the same choice |
| `Router.ChoiceIsNearMinimum` | internal/cluster/routing_roomrouter.go:45-52 | the chosen score is within the local margin of every candidate's |
| `Router.EachAddsItsWeight` | internal/cluster/routing_roomrouter.go:14-43 | an empty node scores nothing, each participant, publication, subscription and room adds its own weight, and all-zero weights stand for the defaults |
| `Router.BeforeExactly` | internal/cluster/routing_roomrouter.go:64-71 | ties go to the id that is smaller where the two first differ |
| `RoomScheduling.Fresh` | internal/cluster/routing_roomrouter.go:142-149 | a node has a load exactly when it has a report within the maximum age, and then the last such report |
| `RoomScheduling.Candidates` | internal/cluster/routing_roomrouter.go:153-171 | the candidates are exactly the accepting, non-stale nodes whose corrected load is under the hard limits |
| `RoomScheduling.RoomRouter.SelectNode` | internal/cluster/routing_roomrouter.go:129-214 | no decision without trusted state or without candidates; a remembered decision stands for fifteen seconds while its node is a candidate; otherwise the policy decides, which is counted as pending and remembered |
| `RoomScheduling.ChosenNodeHasRoom` | internal/cluster/routing_roomrouter.go:155-190 | a room only goes to an accepting, non-stale node under its hard limits |
| `RoomScheduling.RefusedExactlyWithoutSpace` | internal/cluster/routing_roomrouter.go:153-233 | a room is refused exactly when no accepting, non-stale node has space in each limited count, counting the rooms placed on it since its report |
| `RoomScheduling.DecisionIsNoted` | internal/cluster/routing_roomrouter.go:208-258 | a policy decision counts one more room on the chosen node, from one again after five seconds, and is remembered for this room; nothing else changes |
| `RoomScheduling.KnownExactlyWhenRecent` | internal/cluster/routing_roomrouter.go:142-149 | a node's load is known exactly when a report of it is no older than the maximum age |
| `RoomScheduling.DecisionStands` | internal/cluster/routing_roomrouter.go:181-210 | asked again while the node is a candidate, whatever the loads have become, the router repeats its decision and changes nothing exactly until fifteen seconds after the policy made it |
| `RoomScheduling.PendingCountsPlacements` | internal/cluster/routing_roomrouter.go:235-258 | over runs of any length and duration in which no count is restarted, a node's pending count grows by exactly the rooms placed on it |
| `RoomScheduling.PlacementsKeepSpread` | internal/cluster/routing_roomrouter.go:129-258 | with a fixed snapshot, no limits and no count restarted, after any number of decisions over any time the scores of the eligible nodes are no further apart than they were or than margin plus one placement, whichever is wider |
| `RoomScheduling.ShippedSpreadIsSeven` | internal/cluster/cluster.go:197 | with the shipped weights and margin that bound is max(initial spread, 7) |
| `RoomScheduling.PlacementsStayWithinCapacity` | internal/cluster/routing_roomrouter.go:218-258 | with a fixed snapshot, any limits and no count restarted, the reported plus placed rooms, and participants, of a node that received a room stay below its hard limit plus one: with whole limits, never past the limit |
| `WireFormat.FillFrame` | internal/cluster/media_transport.go:74-83 | the buffer filled field by field is the frame encoding |
| `WireFormat.FrameLayout` | internal/cluster/media_transport.go:74-83 | magic, version and type, the session, the payload length high byte first as far as two bytes count, and the payload from byte 21 on |
| `WireFormat.KeyedLayout` | internal/cluster/media_transport.go:106-115 | the key length, at most 255 bytes of key, and the packet |
| `WireFormat.HelloLayout` | internal/cluster/media_conn.go:91-102 | each node id after one byte of its length, and the code last |
| `WireFormat.DecodeFrame` | internal/cluster/media_transport.go:91-104 | every byte string decodes or is refused, in bounds; what decodes re-encodes to a prefix of the datagram |
| `WireFormat.DecodesToCounted` | internal/cluster/media_transport.go:74-104 | a frame followed by anything decodes to its payload's first bytes, as many as sixteen bits count |
| `WireFormat.FrameRoundTrip` | internal/cluster/media_transport.go:74-104 | frames round-trip exactly when the payload is below 65536 bytes |
| `WireFormat.TruncatedFrameIsRefused` | internal/cluster/media_transport.go:91-97 | a frame cut short anywhere is refused |
| `WireFormat.DecodeKeyed` | internal/cluster/media_transport.go:117-126 | every payload decodes or is refused; what decodes re-encodes to exactly the payload |
| `WireFormat.KeyedRoundTrip` | internal/cluster/media_transport.go:106-126 | the packet always comes back whole, and the key exactly when it is at most 255 bytes |
| `WireFormat.ParseHello` | internal/cluster/media_transport.go:312-330 | every payload parses or is refused; a parsed HELLO re-encodes to exactly its payload |
| `WireFormat.HelloRoundTrip` | internal/cluster/media_conn.go:91-102 | HELLOs round-trip exactly when both node ids are at most 255 bytes |
| `WireFormat.ArrivesExactlyWhenItFits` | internal/cluster/media_transport.go:211-213 | a media packet of any size arrives whole exactly when its frame fits the 2048-byte read buffer; otherwise nothing arrives, except a part where the sixteen-bit length wraps to what fits |
| `WireFormat.SafePacketLimits` | internal/cluster/media_conn.go:112-123 | everything the sender's size check lets through arrives exactly when the limit is between 1 and 1771 |

## Left out

- SDP text, ICE candidates, DTLS, SRTP, RTP forwarding and the Pion and browser objects: only signaling state and version
  numbers of the track sets are modelled.
- Interleavings inside one SFU handler: HandleOffer releases its lock after the collision check; each handler is one step.
- SDP errors on a remote offer, in the SFU and in the browser.
- Redis key expiry, lost or delayed replies and forced SetOwner and RemoveOwner; commands and scripts are atomic steps.
- A scan reads the clock and the registry once; the detector's start-up, failure listing and metrics are not modelled.
- RecoverNode's worker pool: rooms are recovered one after another, and the answers of the router are given per room.
- Cleaning up the location records of participants after a recovery, and deleting the dead node's load report.
- Publish and subscription intents of a session, its timestamps other than the disconnect time, and metrics.
- Dispatch after deduplication, message signing and the HTTP transport between nodes.
- The wall clock of the rate limiter, which is taken never to go backwards.
- The garbage collector's freedom to drop free buffers from the pool.
- Packet contents beyond the copy into the pool's fixed-size buffer; the condition variable of the queue, so a pop is
  taken when it is ready to return.
- The remote sink list, which follows the same scheme as the sink list that is modelled.
- Per-participant subscription maps are held as one relation per room, and the counters, which span the whole SFU, per room.
- Track source, the subscribed flag and the local participant of the SDK.
- NaN, infinities and float rounding in the quality score; the rounded metrics map, frame size and the order in which a
  snapshot lists its streams; stream states are values, not objects shared by pointer.
- Clearing of pending counts after a claim, soft limits, and the difference between the router's clock readings within
  one call; remembered decisions expire as in the in-memory store.
- HMAC computation, source address checks, heartbeats and session set-up of the media transport.
- REST API, authentication tokens, webhooks, call history, environment parsing, web pages and the load-test tool.
