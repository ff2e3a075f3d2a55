# A verified model of messk

messk is an end-to-end encrypted messenger: a Go server (`mess/`), a Rust core shared by the
clients (`clients/core/`) and a Windows client (`clients/windows/`). This project models its hardest
logic in Dafny and proves what each part is for. `dafny verify dfyconfig.toml` checks everything.

| Part | Files | Main results |
|---|---|---|
| Double ratchet | `keys`, `ratchet`, `ratchet_once`, `ratchet_pair` | two peers over a network that delays, reorders, duplicates, loses and forges; nothing is sealed or read twice |
| First contact | `first_contact`, `conversation` | the X3DH handshake agrees, its first message arrives, is read once if it used a prekey, and every later message arrives through the account's cache and store |
| Gossip mesh | `mesh_names`, `mesh_dedupe`, `mesh_flood`, `mesh_runs` | the flood is a bounded breadth-first search with exact deliveries and balanced counters; exactly what may be published; the network is what its history says; nobody accepts twice before expiry |
| Rate limits | `fixed_window`, `ip_rate_limit`, `event_flood` | every answer by the list of attempts alone; less than twice the limit in any sliding window; cleanup is invisible |
| Rooms | `room_names`, `rooms`, `room_effects` | one owner per group and channel, always; roles rise only by the owner's step; each request is granted exactly when it may be and then has its effect |
| Server delivery | `envelopes`, `hub`, `hub_delivery`, `room_delivery`, `queue_delivery`, `offline_queue`, `offline_drain`, `history` | accepted means enqueued or queued, and queued means sent once, exactly when; paging reads every row once |
| Client tables and arithmetic | `attachments`, `padding`, `transport` | the attachment index follows the texts; padding is a closure onto bucket sizes; failover visits the usable kinds |

Cryptography is symbolic: a secret is an identifier, a Diffie-Hellman value is the unordered pair of two
secrets, every derived key is a term that records how it was derived, and a sealed box opens under its own
key only. The session follows "The Double Ratchet Algorithm" (Signal), sections 3.3 to 3.5, except that
the first chain starts from the X3DH secret itself, as the source does.

Where the source updates fields, the model is a class whose methods run the same statements; each method
is proved to have exactly the effect of a specification function, and the theorems are about runs of those
functions. Clocks, generated secrets, identifiers and tokens, hash-set order, failing statements and
failing randomness are parameters, so every theorem holds for all of them.

Seven promises do not hold of the code on all inputs; each has its exact condition:

* a genuine message that has not been read yields its text exactly when the receiver's skip check passes and no
  forgery has arrived under its header while its key waited in the skipped map
  (`RatchetPair.FirstArrivalYields`): that key is removed before the message is authenticated, and a forgery there
  makes the genuine message unreadable for good (`RatchetPair.ForgeryUsesUpKey`);
* a second delivery of a first message yields its text again exactly when no prekey was used
  (`FirstContact.SecondDeliveryYieldsWithoutPreKey`);
* replies go out of the stored session while messages are read through the cached one, which then overwrites the
  store. So the peer's answer to a first reply arrives exactly when the connection on which the client read the
  first message, and with it the cache, has ended (`Conversation.AnswerArrivesExactlyWhenRestarted`), and two
  replies with a message read in between carry one number and one key exactly when that message started no new
  chain (`Conversation.ReplyRepeatsExactlyWhen`). An account stays in touch with the protocol exactly as long as its
  steps are timely (`Conversation.StepStaysExactlyWhen`), and then all messages arrive
  (`Conversation.LaterMessagesArrive`);
* the payload of an accepted message that found nobody listening is the one kept offline exactly when no other
  sender's row holds its (recipient, identifier) and the identifier is not blank or the row holds that payload
  already (`QueueDelivery.DirectStoredExactlyWhen`, `OfflineQueue.StoredExactlyWhen`, with the concrete case
  `QueueDelivery.AnotherSenderBlocks`);
* the payload of an accepted message is the one in the history exactly when nothing else, such as the peer's own
  message, was under its (thread, identifier) before (`HubDelivery.OwnHistoryExactlyWhen`, with the concrete case
  `QueueDelivery.PeersIdHidesHistory`);
* an acknowledgement removes the row it answers, and list-and-acknowledge drains a queue with live rows, exactly
  when the account's key string has no blank ends (`OfflineDrain.AcknowledgingRemovesExactlyWhen`,
  `OfflineDrain.RoundsEmptyQueue`): base64 decoding accepts a key followed by a line break
  (`Envelopes.ValidKeysMayHaveBlankEnds`), while the delete statement compares with the trimmed key
  (`OfflineDrain.AcknowledgedRowStays` is a concrete case). For the same reason a group's creator owns it exactly
  when their key has no blank ends (`Rooms.CreatorOwnsGroupExactlyWhen`, `Rooms.CreatorMayNotOwn`);
* a padding plan for JSON that is not an object states the length of the text exactly when that length
  already is a bucket size, since nothing is padded then (`Padding.OnlyObjectsArePadded`, with the concrete case
  `Padding.PlanMayMisstateLength`).

## Model

| member | source | states |
|---|---|---|
| Keys.AgreementIsSymmetricAndInjective | clients/windows/src/crypto.rs:256-287 | both ends of a Diffie-Hellman agreement get one value, and only that pair of secrets gets it |
| Ratchet.Session.NewSender | clients/windows/src/ratchet.rs:124-150 | a sender starts with the shared secret as its send chain and no receive chain |
| Ratchet.Session.NewResponder | clients/windows/src/ratchet.rs:152-178 | a responder starts with the shared secret as its receive chain under the sender's ratchet key |
| Ratchet.Session.Encrypt | clients/windows/src/ratchet.rs:217-254 | `encrypt` has exactly the effect of `Encrypted`: start a chain if needed, advance it, number the message, and keep the advance when sealing fails |
| Ratchet.Session.EnsureSendChain | clients/windows/src/ratchet.rs:318-340 | a missing send chain is started from a new key pair; every failure leaves the session unchanged |
| Ratchet.Session.SkipMessageKeys | clients/windows/src/ratchet.rs:342-377 | the loop stores one message key per passed index and advances the chain, or fails unchanged beyond 50 |
| Ratchet.Session.Decrypt | clients/windows/src/ratchet.rs:256-316 | `decrypt` on a cloned draft has exactly the effect of `Decrypted`: the draft is kept only with a plaintext |
| Ratchet.OpensExactlyWhen | clients/windows/src/ratchet.rs:431-469 | a text comes out if and only if it was sealed under this key, alone or with this header |
| Ratchet.StoreSkippedContents | clients/windows/src/ratchet.rs:354-376 | a skip stores exactly the keys of the passed indices, each the right step of the chain, and keeps all others |
| Ratchet.FailedDecryptKeepsSession | clients/windows/src/ratchet.rs:256-316 | without a plaintext the session is unchanged but for the one skipped key under the message's own id |
| RatchetOnce.EncryptNeverRepeats | clients/windows/src/ratchet.rs:217-254 | over any mix of sends and receives no (ratchet key, n) and no message key is used for two messages |
| RatchetOnce.ReadAtMostOnce | clients/windows/src/ratchet.rs:256-316 | what once yielded plaintext yields none at any later point, under any header |
| RatchetPair.FirstArrivalYields | clients/windows/src/ratchet.rs:256-316 | in every two-party run, forgeries included, an unread genuine message yields its own text if and only if the skip check passes and no forgery used up its stored key; else nothing changes |
| RatchetPair.ForgeryYieldsNothing | clients/windows/src/ratchet.rs:256-316 | in every run a message sealed under foreign keys, or for another header, yields nothing and changes nothing but the one key stored under its header |
| RatchetPair.ForgeryUsesUpKey | clients/windows/src/ratchet.rs:261-275 | after a forgery under the header of a message whose key was stored, that message yields nothing at any later point |
| RatchetPair.ReplayYieldsNothing | clients/windows/src/ratchet.rs:256-316 | in every run a message already read yields nothing and changes nothing |
| RatchetPair.ReceiveChainIsExact | clients/windows/src/ratchet.rs:342-377 | in every run the receive chain key is the recvIndex-th step of one chain, the sender stands further along it, and the skipped map holds exactly its indices neither read nor used up by a forgery, with their keys |
| RatchetPair.RootsStayTogether | clients/windows/src/ratchet.rs:277-299 | in every run the two roots are equal or one ratchet step apart |
| FirstContact.HandshakeAgrees | clients/windows/src/crypto.rs:204-254 | initiator and responder derive the same secret, with and without a prekey |
| FirstContact.HandshakeBindsPreKey | clients/windows/src/crypto.rs:234-254 | responding with another prekey derives another secret |
| FirstContact.HandshakeBindsEphemeral | clients/windows/src/crypto.rs:234-254 | responding under another ephemeral key derives another secret, with whatever prekey |
| FirstContact.DirectReceiver.DecryptDirectPayload | clients/windows/src/net.rs:1558-1622 | the receiver has exactly the effect of `Receive` on the cached sessions, stored sessions and prekeys |
| FirstContact.UntouchedStays | clients/windows/src/net.rs:1558-1622 | through any activity that leaves a handshake unanswered, no session the account caches or stores can hold that handshake's first message key |
| FirstContact.FirstMessageArrives | clients/windows/src/net.rs:1584-1618 | whatever an account has done before, if this handshake is unanswered and its prekey, if any, is still there: the first message's text comes back, the session is cached and stored, the prekey deleted, nothing else changes, and both sessions are those of a two-party run |
| FirstContact.NewAccountAwaits | clients/windows/src/net.rs:1584-1618 | an account that has just made the prekey is one such |
| FirstContact.ResettingForgets | clients/windows/src/net.rs:1399-1400 | dropping a session leaves none with the peer and touches nothing else |
| FirstContact.FirstMessageReadOnce | clients/windows/src/net.rs:1558-1622 | for such an account, once the message has been read the same payload yields no plaintext again, whatever the account does later, prekeys being generated anew each time |
| FirstContact.SecondDeliveryYieldsWithoutPreKey | clients/windows/src/net.rs:1584-1618 | for such an account, delivering the same payload twice yields its text twice if and only if it used no prekey |
| Conversation.MessageIsReceived | clients/windows/src/net.rs:1558-1582 | in every two-party run, an account whose session, cached or only stored, is the run's reads a genuine message that is unread, unburnt and within the skip; then it holds the run's next session in cache and store, and nothing else changes |
| Conversation.MessageIsIgnored | clients/windows/src/net.rs:1558-1582 | any other genuine message yields nothing and leaves the account as it is |
| Conversation.StepStaysExactlyWhen | clients/windows/src/net.rs:1572-1585 | through a delivery, forgery, reply or restart the session the account meets stays the run's if and only if the step is timely, which the account can check before it |
| Conversation.LaterMessagesArrive | clients/windows/src/net.rs:1558-1622 | after any past, an arrived first message and any orderly steps, restarts included, a genuine message that is unread, unburnt and within the skip yields its text, and cached and stored session are the run's |
| Conversation.InitiatorMeets | clients/windows/src/net.rs:1046-1052 | an account that starts a session of its own, with none cached, is in touch with the run from its beginning |
| Conversation.AnswerArrivesExactlyWhenRestarted | clients/windows/src/net.rs:1032-1036 | a reply goes out of the stored session only: the peer's answer to it arrives if and only if the client has reconnected, or been restarted, since it read the first message |
| Conversation.ReplyRepeatsExactlyWhen | clients/windows/src/net.rs:1032-1036 | two replies with a message read in between carry the same number and key if and only if that message started no new chain |
| MeshNames.ThreadTopicIsValid | clients/core/src/mesh.rs:388-421 | a topic built for a thread is a valid topic, for every thread id that can be normalised |
| MeshNames.DedupeKeyInjective | clients/core/src/mesh.rs:398-451 | `topic:msg_id` names one topic and one id among valid envelopes |
| MeshNames.ValidExactlyWhen | clients/core/src/mesh.rs:79-101 | an envelope is valid if and only if its version is 1, its topic and id have the allowed letters and lengths, its ciphertext is not blank and at most 1 MiB, its hop limit is at most 8 and its expiry is later than now |
| MeshNames.TopicExactlyWhen | clients/core/src/mesh.rs:407-424 | a topic is valid if and only if it is the prefix, one of three kinds and a thread id of 1 to 160 allowed characters |
| Text.LoweringIs | clients/core/src/mesh.rs:428-434 | capitals become small letters and nothing else changes |
| Text.WhitespaceIs | clients/core/src/mesh.rs:424-428 | trimming removes the 25 code points of the White_Space property |
| Text.Utf8LenOfChar | clients/core/src/mesh.rs:424-428 | a length in bytes counts one to four bytes for a code point |
| MeshNames.NewEnvelopesAreSendable | clients/core/src/mesh.rs:53-78 | a new envelope is made if and only if its parts are acceptable, on the thread's topic with hop limit 3, and may be published until it expires |
| MeshDedupe.MeshDedupeCache.Remember | clients/core/src/mesh.rs:150-167 | `remember` prunes, refuses a known key and records a new one, exactly as `Remembered` |
| MeshDedupe.MeshDedupeCache.Prune | clients/core/src/mesh.rs:169-181 | the loop drops keys from the oldest end up to the first live one |
| MeshDedupe.PruningIsSound | clients/core/src/mesh.rs:169-181 | pruning removes only expired keys, changes no other, and keeps list and table in agreement |
| MeshDedupe.AlwaysSound | clients/core/src/mesh.rs:144-181 | in every reachable cache the list has no duplicates and names exactly the keys of the table |
| MeshDedupe.AcceptedOnceBeforeExpiry | clients/core/src/mesh.rs:150-181 | with a clock that never goes back, one (topic, id) is accepted at most once before its first copy expires |
| MeshDedupe.RefusedOnlyAsDuplicate | clients/core/src/mesh.rs:150-167 | a valid envelope is refused only if the same (topic, id) was accepted before |
| MeshFlood.MeshSimulator.AddNode | clients/core/src/mesh.rs:221-226 | adding keeps links symmetric between existing nodes and changes nothing else |
| MeshFlood.MeshSimulator.Subscribe | clients/core/src/mesh.rs:228-230 | a valid topic joins a known node's subscriptions; otherwise an error and no change |
| MeshFlood.MeshSimulator.LinkBidirectional | clients/core/src/mesh.rs:232-244 | both ends are linked, and links stay symmetric between existing nodes |
| MeshFlood.MeshSimulator.UnlinkBidirectional | clients/core/src/mesh.rs:246-259 | both ends are unlinked, and links stay symmetric between existing nodes |
| MeshFlood.MeshSimulator.RemoveNode | clients/core/src/mesh.rs:261-271 | the node and every link to it go, and links stay symmetric between existing nodes |
| MeshFlood.MeshSimulator.SetNowMs | clients/core/src/mesh.rs:273-278 | every cache is pruned at the new time and links stay symmetric |
| MeshFlood.TickingPrunes | clients/core/src/mesh.rs:273-278 | setting the time drops expired keys, oldest first up to the first live one, and keeps all live ones |
| MeshFlood.MeshSimulator.AcceptAtNode | clients/core/src/mesh.rs:308-373 | one arrival has exactly the effect of `Arrived` for some order of the onward neighbours |
| MeshFlood.UnwelcomeArrivals | clients/core/src/mesh.rs:308-327 | an arrival that may not be sent any more, or finds no node, changes only the counters of expired and unknown |
| MeshFlood.MeshSimulator.Publish | clients/core/src/mesh.rs:280-306 | the loop terminates, and whatever the neighbour order: exactly the subscribed nodes within the hop limit get the message once, each with the hops left at its exact distance; 1 + forwarded = newly knowing nodes + duplicates; nothing is expired or unknown; accepting nodes record the expiry and no live cache entry is lost; and it succeeds if and only if the envelope may be sent, in numbers, and the origin is a node |
| MeshFlood.BallIsReachability | clients/core/src/mesh.rs:280-373 | the nodes reached within k hops are the ends of walks of at most k links |
| MeshFlood.ColdBallIsLinkDistance | clients/core/src/mesh.rs:280-373 | if no node remembers the message, that is plain link distance |
| MeshFlood.ColdPublishDelivers | clients/core/src/mesh.rs:280-373 | if no node remembers the message, a node gets it if and only if it is subscribed and its link distance is within the hop limit; it gets it once, with the hop limit less that distance |
| MeshFlood.PublishConservesWork | clients/core/src/mesh.rs:280-373 | 1 + forwarded = nodes that newly remember the message + duplicates, with no expired and no unknown arrivals |
| MeshFlood.PublishingAgainIsSilent | clients/core/src/mesh.rs:280-373 | publishing the same message again at the same time delivers and forwards nothing and teaches nobody |
| MeshFlood.ForwardedIsBounded | clients/core/src/mesh.rs:280-373 | copies forwarded and copies cut by the hop limit are together bounded by the number of link ends |
| MeshRuns.Perform | clients/core/src/mesh.rs:211-306 | every call on the simulator is a step of such a run |
| MeshRuns.NetworkIsItsHistory | clients/core/src/mesh.rs:221-278 | in every run nodes, links and subscriptions are exactly what the list of actions says: added and not removed, linked and not unlinked, subscribed and not removed since |
| MeshRuns.ClockIsLastSet | clients/core/src/mesh.rs:273-278 | in every run the clock shows the time set last |
| MeshRuns.AcceptedOnceInNetwork | clients/core/src/mesh.rs:150-181 | in every run of the simulator with a clock that never goes back, a node that stays in the network accepts a (topic, id) at most once before the first copy expires, across origins, publishes, ticks and topology changes |
| MeshRuns.DeliveredWasAccepted | clients/core/src/mesh.rs:336-353 | a node to which a publish delivers is one that accepted it |
| FixedWindow.OpeningFits | mess/main.go:1730-1735 | opening a window after the old one's end keeps every sliding interval within the bound |
| FixedWindow.JoiningFits | mess/client.go:398-406 | one more attempt in the current window keeps every sliding interval within the bound |
| IpRateLimit.IpRateLimiter.Allow | mess/main.go:1706-1741 | `allow` has exactly the effect of `Allowed` on the buckets and the cleanup time |
| IpRateLimit.IpRateLimiter.Sweep | mess/main.go:1721-1726 | the cleanup loop drops exactly the buckets that are over, in any order |
| IpRateLimit.CleanupIsInvisible | mess/main.go:1720-1728 | with a clock that never goes back, every decision and retry time equals that of a limiter that never deletes |
| IpRateLimit.OldBucketsAreDropped | mess/main.go:1718-1726 | right after any attempt the table holds no bucket that has been over for a whole window |
| IpRateLimit.SlidingBound | mess/main.go:1706-1741 | one address is let through at most 2L - 1 times in any closed interval one window long, if no limit read exceeds L |
| IpRateLimit.BurstIsReached | mess/main.go:1706-1741 | for every limit and window of at least one, a run attains that bound |
| IpRateLimit.RetryTimeIsExact | mess/main.go:1737-1740 | in every run a refused address stays refused up to the retry time it was told, and its first attempt later than that is let through |
| IpRateLimit.AnswersAreExact | mess/main.go:1704-1737 | with a clock that never goes back, every attempt is let through if and only if fewer than the limit of its address have come since the one that opened its window, counted from the list of attempts; a refusal tells the time left of it |
| IpRateLimit.HostsAreCounted | mess/main.go:1705-1711 | attempts of one host count together whatever their ports, those of two hosts do not |
| EventFlood.FloodGuard.AllowInboundEvent | mess/client.go:374-418 | the guard has exactly the effect of `Allowed` on windows, violations, block and typing time |
| EventFlood.AnswersAreExact | mess/client.go:374-450 | after any events the answer to the next one is what the list of events says: refused while a block lasts, typing 900 ms apart, any other let through if and only if fewer of its family than 36, 80, 20, 24, 60 or 50 have come since the one that opened its window; waiting times included |
| EventFlood.SlidingBound | mess/client.go:394-406 | each category is let through at most 2L - 1 times in any closed interval of ten seconds |
| EventFlood.TypingIsSpaced | mess/client.go:386-392 | typing events let through are at least 900 milliseconds apart |
| EventFlood.ThirdRefusalBlocks | mess/client.go:407-417 | in every run a block starts exactly with every third event over its allowance, counted from the list of events |
| EventFlood.BlockHolds | mess/client.go:378-384 | from the event that starts a block on, every event of the next 30 seconds is refused with a wait of 1 to 30 seconds and nothing is remembered of it |
| RoomNames.SanitizeMemberPubKeys | mess/main.go:1275-1298 | the loop computes `Sanitized` |
| RoomNames.SanitizedIsTheNamedOthers | mess/main.go:1275-1298 | cleaning succeeds if and only if all names are keys and at most 200 differ from the owner, and then lists exactly those, each once |
| Rooms.RoomTables.PostGroup | mess/main.go:122-160 | creating a group has exactly the effect of `Handled` |
| Rooms.RoomTables.PostChannel | mess/main.go:454-480 | creating a channel has exactly the effect of `Handled` |
| Rooms.RoomTables.TransferOwnership | mess/main.go:197-232 | transfer moves the recorded owner and both rows, or is refused unchanged |
| Rooms.RoomTables.DeleteRoom | mess/main.go:233-245 | the owner's delete removes the room with its rows and links; anyone else leaves |
| Rooms.RoomTables.PostMember | mess/main.go:320-348 | owners and admins add a base member; an existing row stays |
| Rooms.RoomTables.PatchMember | mess/main.go:349-394 | only the owner changes roles, never their own and never to or from owner |
| Rooms.RoomTables.DeleteMember | mess/main.go:395-427 | owners remove anyone else, admins only lower roles, nobody the owner |
| Rooms.RoomTables.PostLink | mess/main.go:754-798 | owners and admins create a link with its expiry, maximum and password |
| Rooms.RoomTables.DeleteLink | mess/main.go:829-855 | owners and admins revoke a link of their own room |
| Rooms.RoomTables.JoinByInviteToken | mess/db.go:1128-1193 | joining checks revocation, expiry, use count and password in that order, then adds a base member and counts the use |
| Rooms.CreatorOwnsGroupExactlyWhen | mess/db.go:678-699 | the creator owns a new group if and only if their key has no blank ends |
| Rooms.CreatorMayNotOwn | mess/db.go:678-699 | every valid key followed by a line break is an accepted key that does not own the group it creates |
| Rooms.AlwaysOneOwner | mess/db.go:853-885 | after any requests, one at a time, a room has exactly one owner row and it is the recorded owner's |
| Rooms.StepIsAuthorized | mess/main.go:165-431 | one step changes an existing member's role only if its actor is the owner; removes a row only for its holder, the owner, or an admin over a lower role; adds only base members; and moves ownership only from the owner to a member |
| Rooms.RisesOnlyByOwner | mess/main.go:484-747 | over any run, a member who ends higher was raised by a step of the owner of that moment |
| Rooms.LinksStayWithinLimit | mess/db.go:1150-1186 | no link is ever used more often than its maximum |
| RoomEffects.GrantedExactlyWhen | mess/main.go:103-431 | every request is granted if and only if the rows and links allow it, and then leaves what it asks for in the rows and links and changes nothing else; refused, it changes nothing |
| RoomEffects.ForbiddenExactlyWhen | mess/main.go:165-431 | the answer "forbidden" is given if and only if the asker lacks the role |
| RoomEffects.JoinRefusals | mess/db.go:1128-1175 | which joins are refused as unknown, gone, without or with a wrong password |
| RoomEffects.NewLinkLetsIn | mess/db.go:1128-1193 | a new link lets in exactly those who come in time with its password |
| RoomEffects.RevokedLetsNobodyIn | mess/db.go:1150-1160 | once a link is revoked no join with its token is granted, through any later requests |
| Hub.MessageHub.AddClientSession | mess/hub.go:200-217 | the session joins, and the answer is whether it is the account's first |
| Hub.MessageHub.RemoveClientSession | mess/hub.go:219-236 | the session goes, and the answer is whether it was the account's last |
| Hub.JoiningAdds | mess/hub.go:200-217 | a session that joins is added to its account's and changes no other, nor any channel |
| Hub.LeavingTakes | mess/hub.go:219-236 | a session that leaves is taken from its account's, and nothing else changes |
| Hub.ListensExactlyWhen | mess/client.go:808 | a session listens as long as its channel holds fewer than 256 payloads |
| Hub.MessageHub.DeliverToPubKey | mess/hub.go:238-261 | in any order: every session with room gets the payload, every full one is dropped; delivered if and only if one had room |
| Hub.MessageHub.SaveDirectMessageHistory | mess/hub.go:503-544 | the history entry is filed, skipped or refused as `HistorySaved` |
| Hub.MessageHub.RouteRoomMessage | mess/hub.go:413-461 | the loop over members has exactly the effect of `RoutedRoom` |
| Hub.MessageHub.RouteToLocal | mess/hub.go:369-411 | routing has exactly the effect of `Routed` on sessions, queue and history |
| HubDelivery.DirectAcceptedExactlyWhen | mess/hub.go:369-411 | a direct message is accepted if and only if its history is filed and it is delivered, queued or of a fleeting kind |
| HubDelivery.DirectMessageIsKept | mess/client.go:268-292 | an accepted direct message of a client is on a live session or in the queue under its id, unless its kind is never kept; recorded kinds have a history row under (thread, id) |
| HubDelivery.DirectStateTells | mess/hub.go:394-409 | the history entry of an accepted direct message says "delivered" if a session took it and "waiting_delivery" if it was queued; if the update statement fails, a new entry says "accepted" and an earlier one is as it was |
| HubDelivery.OwnHistoryExactlyWhen | mess/hub.go:503-544 | after an accepted direct message of a recorded kind, the history holds its own payload under the sender's name if and only if nothing else was under its (thread, id) |
| HubDelivery.RoomMessageReachesMembers | mess/hub.go:576-617 | an accepted group or channel message is, for every listed member but the sender, on a live session or in the queue under its id |
| RoomDelivery.EveryMemberIsReached | mess/db.go:786-807 | with the list the membership table gives after any requests of signed-in users, an accepted group or channel message is, for every member of the room but the sender, on a live session or in the queue |
| Envelopes.ValidKeyIsNotBlank | mess/client.go:648-651 | a valid key string is not blank after trimming |
| Envelopes.ValidKeysMayHaveBlankEnds | mess/client.go:648-651 | every valid key followed by a line break is valid too, and trimming changes it |
| Envelopes.RoutedExactlyWhen | mess/client.go:509-590 | a client's envelope is routed, under its own key, if and only if that is a key and the envelope is complete: kind by kind the address, id, target and data it needs, and at most 128 KiB |
| Envelopes.KeyExactlyWhen | mess/client.go:648-651 | a key is, line breaks aside, 43 characters of the base64 alphabet and a padding sign |
| Envelopes.WithoutNewlinesOf | mess/client.go:648-651 | the decoder leaves out exactly the line breaks |
| OfflineQueue.OfflineTable.SaveOfflineMessage | mess/db.go:1370-1390 | update in place or insert if the key is free, exactly as `Saved` |
| OfflineQueue.OfflineTable.ListOfflineMessages | mess/db.go:1392-1429 | the first 1000 rows are read, the stale ones deleted, the others returned |
| OfflineQueue.OfflineTable.ScanBatch | mess/db.go:1408-1421 | the loop separates live rows from stale identifiers, in order |
| OfflineQueue.OfflineTable.DeleteOfflineMessage | mess/db.go:1431-1446 | the row under the trimmed key goes |
| OfflineQueue.SavedHolds | mess/db.go:1370-1390 | after a save there is a row under (recipient, msg_id) |
| OfflineQueue.StoredExactlyWhen | mess/db.go:1370-1390 | the payload itself is kept if and only if the row already there, if any, is the sender's own and the id is not blank or the row has that payload |
| OfflineQueue.ResendKeepsPlace | mess/db.go:1367-1384 | a resend changes its row's payload only, in place |
| OfflineDrain.AcknowledgingRemovesExactlyWhen | mess/db.go:1431-1446 | an acknowledgement removes the listed row if and only if the account's key has no blank ends |
| OfflineDrain.AcknowledgedRowStays | mess/db.go:1431-1446 | a concrete accepted key and message: sent, acknowledged, and still in the queue |
| OfflineDrain.RoundsSendInOrder | mess/db.go:1392-1455 | with no arrivals, n rounds of list and acknowledge send exactly the live rows among the first 1000 n, in order, once each, leave exactly the rest and touch nobody else's rows, if and only if the key has no blank ends or those rows are all stale |
| OfflineDrain.RoundsEmptyQueue | mess/db.go:1392-1455 | enough rounds empty the queue if and only if the key has no blank ends or every row is stale, and then they have sent every live row once, however many whole batches are stale |
| OfflineDrain.AlwaysSound | mess/db.go:1370-1455 | whatever is saved, listed and acknowledged, (recipient, msg_id) stays unique and rows stay in insertion order |
| OfflineDrain.RowsLeaveAcknowledgedOrStale | mess/db.go:1392-1455 | a row leaves the queue only by its acknowledgement, or as stale when its recipient lists it |
| OfflineDrain.ClientRowIsStaleExactlyWhen | mess/db.go:1457-1484 | a client's envelope is never shown if and only if it has no valid id or is a message to oneself |
| OfflineDrain.StaleExactlyWhen | mess/db.go:1457-1484 | a row is never shown if and only if it holds no envelope, no plain id, or a message both of whose names are the recipient's |
| OfflineDrain.QueuedMessageIsSentOnceExactlyWhen | mess/db.go:1370-1455 | a client's payload, saved for a recipient, is sent by enough rounds exactly once and then gone, if and only if the table admitted it, it has a valid id and is no message to oneself, and the recipient's key has no blank ends |
| QueueDelivery.AlwaysSound | mess/hub.go:279-328 | whatever sessions, routed messages, listings and acknowledgements come, sessions, queue and history keep their invariants |
| QueueDelivery.UnheardByKind | mess/hub.go:399-409 | a client's complete direct message that finds nobody listening: when it is accepted, that it is then queued under its id unless it is of the nine transient kinds or a session reset without id, which leave the queue as it was, and that it is recorded if and only if its kind is |
| QueueDelivery.HeardByKind | mess/hub.go:390-398 | if somebody listens, every session with room gets the payload and the queue is not used |
| QueueDelivery.RoomAcceptedExactlyWhen | mess/hub.go:413-461 | a client's complete room message is accepted if and only if the members can be listed and each is heard, is the sender or can be queued for, and then each but the sender has it |
| QueueDelivery.DirectStoredExactlyWhen | mess/hub.go:399-409 | the payload of an accepted direct message with nobody listening is the one the queue holds, if and only if any row already under its (recipient, id) is the sender's own, and the id is not blank or that row has the payload |
| QueueDelivery.DirectIsSentOnceExactlyWhen | mess/hub.go:369-411 | an accepted direct message with nobody listening is sent by enough rounds exactly once and then gone, if and only if the queue admitted it, it may be shown, and the recipient's key has no blank ends |
| QueueDelivery.MemberIsSentOnceExactlyWhen | mess/hub.go:413-461 | the same for every member of a room after any requests of signed-in users: with nobody listening for the member, an accepted group or channel message is sent to them exactly once and then gone, if and only if the queue admitted it and the member's key has no blank ends |
| QueueDelivery.AnotherSenderBlocks | mess/db.go:1386-1389 | two concrete accepted messages to one recipient under one id: the second sender's payload is not in the queue |
| QueueDelivery.PeersIdHidesHistory | mess/db.go:525-527 | two concrete accepted messages, one each way under one id: the history does not hold the second |
| History.ThreadIsUnorderedPair | mess/db.go:503-511 | two pairs of accounts share a thread if and only if they are the same unordered pair after trimming |
| History.HistoryTable.SaveMessageHistory | mess/db.go:513-550 | every field is trimmed, a record that misses one is refused, and one whose (thread, id) is taken is ignored |
| History.FilingShape | mess/hub.go:503-544 | a message is filed if and only if it names sender, recipient, id and type, the envelope's own names first, and then under those, trimmed; an id of blanks is refused, anything else missing is passed over |
| History.RawIsNotFiled | mess/hub.go:503-510 | bytes that are no envelope are refused, an empty payload is passed over |
| History.RecordedExactlyWhen | mess/db.go:525-549 | the entry's own payload is in the table after the insert if and only if nothing else was under its (thread, id) |
| History.HistoryTable.UpdateDirectMessageHistoryState | mess/db.go:552-570 | the rows of exactly this sender, recipient and id change state, and nothing but states changes |
| History.HistoryTable.MarkMessageHistoryDeliveredByRecipient | mess/db.go:572-586 | the recipient's rows under the id become delivered, and nothing but states changes |
| History.MarkingTells | mess/db.go:572-586 | after it exactly the recipient's rows under the id say "delivered", and nothing but states changed |
| History.UpdatingTells | mess/db.go:552-570 | after a state update exactly the rows of this sender, recipient and id have the new state |
| History.HistoryTable.ListDirectMessageHistory | mess/db.go:588-660 | one page and its next cursor, for any limit and cursor, exactly as `Paged` |
| History.PageRefusedExactlyWhen | mess/db.go:588-600 | a page is refused if and only if a participant is blank; a negative cursor means the start |
| History.ChangeKeepsSound | mess/db.go:513-586 | inserts and state updates keep ids increasing, (thread, id) unique and threads true to their participants |
| History.PageIsNext | mess/db.go:605-659 | a page after k rows holds exactly the next rows of the thread, and its cursor stands behind them |
| History.ReadIsNext | mess/db.go:588-660 | following the cursor yields what comes next in the final table, in id order, once each, whatever is appended or restated between pages |
| History.EmptyPageMeansAllRead | mess/db.go:588-660 | a page is empty if and only if every row of the thread has been read |
| History.ReadProgresses | mess/db.go:588-660 | n pages read at least n rows or all that were there at the start |
| Attachments.AppStore.UpsertMessage | clients/windows/src/storage.rs:678-721 | the row is written, its creation time kept, and the index synced |
| Attachments.AppStore.UpdateMessageStatus | clients/windows/src/storage.rs:723-734 | only the status and update time of an existing message change |
| Attachments.AppStore.UpdateMessageText | clients/windows/src/storage.rs:736-752 | an existing message's text changes and the index follows; a missing one changes nothing |
| Attachments.AppStore.SoftDeleteMessage | clients/windows/src/storage.rs:754-775 | the text becomes the deleted payload and the index row goes |
| Attachments.AppStore.DeleteMessage | clients/windows/src/storage.rs:786-811 | the message and its index row go |
| Attachments.AppStore.SyncAttachmentMetadata | clients/windows/src/storage.rs:1289-1364 | voice first, then file, else the index row goes |
| Attachments.AppStore.LoadAttachmentMetadata | clients/windows/src/storage.rs:814-843 | the index row is returned with negative numbers read as zero |
| Attachments.FirstStringIsFirst | clients/core/src/payload.rs:264-270 | the first key with a non-blank string decides |
| Attachments.IndexedExactlyWhen | clients/core/src/payload.rs:136-215 | a text is indexed if and only if it is an object with an attachment type, an address and a key; it is a voice entry if and only if the type is a voice type; with the name, media type, size and duration each entry gets |
| Attachments.RoundedIsNearest | clients/core/src/payload.rs:192-197 | a duration is rounded to the nearest whole number between zero and 2^64 - 1 |
| Attachments.DurationIsNumber | clients/core/src/payload.rs:192-197 | a duration is a whole number or a fraction, any other value is none |
| Attachments.OpKeepsIndexed | clients/windows/src/storage.rs:678-811 | every whole operation keeps the index true to the texts |
| Attachments.StoreIsItsHistory | clients/windows/src/storage.rs:678-811 | after any operations each message, and since when it is indexed, is what the operations on its key say |
| Attachments.LoadsWhatTheTextSays | clients/windows/src/storage.rs:814-843 | after any operations, what is loaded is what the current text parses to; numbers from 2^63 on come back as zero, all others exactly |
| Attachments.CreationTimeStays | clients/windows/src/storage.rs:685-710 | a message keeps its creation time until it is deleted for good |
| Padding.FindTargetLen | clients/core/src/metadata.rs:22-34 | the bucket search loop computes `TargetLen` |
| Padding.TargetIsLeastSize | clients/core/src/metadata.rs:22-34 | the target is the least bucket, block multiple or word maximum that holds the payload |
| Padding.SizesAre | clients/core/src/metadata.rs:13-34 | the sizes of each profile in numbers |
| Padding.TargetIsClosure | clients/core/src/metadata.rs:22-34 | it never shrinks, is monotone and idempotent |
| Padding.TargetFitsExactlyWhen | clients/core/src/metadata.rs:62-75 | under every profile the target fits 1 MiB if and only if the payload does |
| Padding.PadPayloadWithByte | clients/core/src/metadata.rs:64-75 | bytes are kept, filler follows up to the target; refused if and only if over 1 MiB |
| Padding.PaddedJsonIsExact | clients/core/src/metadata.rs:77-128 | the padded object's length is exactly the target of its length with empty padding; refused if and only if that is over 1 MiB |
| Padding.OtherMembersKept | clients/core/src/metadata.rs:96-114 | all other members keep their values and their order |
| Padding.PrintedReadsBack | clients/core/src/metadata.rs:96-128 | a printed string reads back as itself |
| Padding.EscapedExactlyWhen | clients/core/src/metadata.rs:96-128 | only quotes, backslashes and control characters are escaped |
| Padding.DisabledPadsNothing | clients/core/src/metadata.rs:77-87 | without a profile everything is sent as it is, whatever its length |
| Padding.PaddedJsonShowsOnlySizes | clients/core/src/metadata.rs:77-128 | an accepted object has one of the profile's sizes |
| Padding.OnlyObjectsArePadded | clients/core/src/metadata.rs:88-94 | other JSON is sent as it is, refused if and only if it is over 1 MiB under a profile, and the plan states its length if and only if that is a size |
| Padding.PlanMayMisstateLength | clients/core/src/metadata.rs:88-94 | a concrete one-byte value whose plan says 256 |
| Transport.Normalized | clients/core/src/transport.rs:162-177 | the retain loop computes `Order` |
| Transport.FirstUsable | clients/core/src/transport.rs:179-187 | the first usable kind of the order |
| Transport.UsableExactlyWhen | clients/core/src/transport.rs:84-115 | a kind is usable if and only if its first health entry says healthy or degraded |
| Transport.NothingBehindUnlisted | clients/core/src/transport.rs:189-211 | behind a kind the policy does not list there is nothing to fail over to |
| Transport.NextAfter | clients/core/src/transport.rs:189-211 | the first usable kind behind the current one |
| Transport.OrderIsByFirstOccurrence | clients/core/src/transport.rs:162-177 | the order lists every kind once, by first occurrence; an empty policy means the default |
| Transport.FailoverVisitsUsableKinds | clients/core/src/transport.rs:179-211 | failing over from the first usable kind visits a sequence of kinds if and only if it is the usable kinds in order, and then ends |

## Left out

- Forged messages in two-party runs are those sealed under keys not derived from the shared secret, or with the ciphertext of another header; an altered text under a genuine key (which a sealed box excludes) and a genuine message reflected to its own sender are not among them.
- Real cryptography (X25519, HSalsa20, HKDF, HMAC, secretbox, base64 of payloads), zeroizing, the vault: symbolic terms stand for it.
- Index overflow in a session: indices are unbounded, the source's are 32-bit.
- FirstContact.DirectReceiver.DecryptDirectPayload: its sessions are values in maps, not aliased objects, and reading and writing the stored tables succeeds.
- Deleting the session when a message yields nothing, and the filters before decryption, are separate `Activity` steps of an account.
- MeshFlood.MeshSimulator.SetNowMs: each node's cache is a value in the node map, pruned by the function that the loop of `MeshDedupe.MeshDedupeCache.Prune` is proved to compute.
- Concurrency on the server: requests, routing steps and limiter calls run one at a time. With a route's checks and its update interleaved with other requests the one-owner invariant is not claimed.
- SQL engine: a statement is a function on a table; a failing statement changes nothing; retries of a busy database are one outcome; the users table and its foreign keys are assumed satisfied, as the routes create the user first.
- OfflineQueue.OfflineTable.SaveOfflineMessage: timestamps of rows are not modelled.
- JSON: a routed payload either is an envelope or is not, and a message text either is an object with typed members or is not; the parser and printer libraries are not modelled beyond the printed shape of an object. Numbers that do not fit a float exactly are reals here.
- Redis fan-out between server instances, online status, session tokens, file tokens, audit log, settings routes, invite dispatch, prekey upload: not modelled.
- The check that a sender belongs to the room, and may post this kind in a channel (mess/client.go:204-262 and 600-611), comes before routing and is not part of the model.
- Dropping a session also closes its connection and deletes its token; only the session's removal is modelled. Draining of a session's channel by its writer runs outside routing steps.
- Attachments: pins, reactions and the outbox are not modelled, and an upsert interrupted between its two statements is not a whole operation.
- EventFlood: times are integers in nanoseconds, and the seconds of a block's remaining time are truncated exactly.
- Delivery states moving only forward, pruning every expired key at once, and single use of a first message without a prekey are not claimed, since the code does not give them.
- Call state, profile and username checks, message-type tables, retry delays, dummy traffic, batch delays, origin normalisation, the user interface, audio, notifications, HTTP and websocket plumbing, libp2p glue and the load tester: left out as simpler or outside the core.
