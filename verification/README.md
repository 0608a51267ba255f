# Igor: sessions, peers, sockets, codecs and CDR files

Igor is a RADIUS and Diameter server. This project models the parts of it in which state, pointers, queues and bytes interact, and proves what they keep.

* **Session store.** `StoreSpec` is the store as a value: sessions by id, secondary indexes, three lists ordered by expiry. `SessionEntry.EntryList` is the intrusive doubly linked list, `SessionStore.RadiusSessionStore` the store that rewires it in place; both are proved against the specification. `StoreIds` and `StorePackets` say what a packet comes to, `StoreTheorems`, `StoreIndexes`, `StoreExpiry` and `StoreRuns` what all runs keep, `StoreTraffic` what the packets have to be like for it, `Convergence` that stores told the same agree.
* **Session server.** `SessionServer.RadiusSessionServer` signs, stores and forwards a packet; `Replication` is a network of such servers, `ReplicaStores` puts a store at each.
* **Diameter peer.** `PeerSpec` has one step for each message of the event loop and each thing that may happen beside it; `DiamPeer.DiameterPeer` is the object. `PeerTheorems`, `PeerTimers`, `PeerStatus`, `PeerClosing`, `PeerHops`, `PeerWatchdog` and `PeerOutcomes` hold over all runs.
* **RADIUS client socket.** `SocketSpec` and the class `RadiusClientSocket.RadiusClientSocket`. `SocketBooks` reduces a step to what it does to the queue, the outstanding requests, the timers and the channels; `SocketRuns`, `SocketLedger`, `SocketTheorems`, `SocketOutcomes`, `SocketTries`, `SocketTwice` and `SocketReuse` reason about that; `SocketCauses` says what each caller is told and why. `SocketIds` is about the search for an identifier.
* **Diameter codec.** `DiameterCodec` and `DiameterMessages` are the format as functions, `DiameterStreams` the methods that read and write streams, `DiameterTheorems` the round trips, `DiameterWire` the bytes one by one.
* **RADIUS codec.** `RadiusHiding` is the hiding of section 5.2 of RFC 2865, `RadiusCodec` an attribute, `RadiusPackets` a packet with its split attributes and its authenticator, `RadiusStreams` the methods, `RadiusTheorems` the round trips, `HidingBytes`, `RadiusWire` and `RadiusPacketWire` the bytes one by one.
* **Peers table.** `PeersTable` and the class `DiameterRouter.DiameterRouter`. `RouterContest` says which of several peers of a host stays, `RouterClosing` counts how often the router signals its end, `RouterPeers` joins the router with what its peers report.
* **CDR backup files.** `CdrText` prints, splits and parses; `CdrWriter` does it with the source's loops; `CdrTheorems` says when a file comes back.

`Common`, `Runs`, `Decimal`, `Bytes`, `Addresses`, `Streams`, `Packets` and `Outstanding` are shared vocabulary. A run is a sequence of states and the events between them, from a new object on, in any order that is possible (`Runs`); for the store and the network of servers every event is possible in every state, and the run is folded from its events. Hash functions, secrets, salts, random authenticators, dictionaries, the success of a write, the order in which a map is gone through and the time are parameters: the statements hold for all of them.

Where the code does not do what it is for, there is a lemma with an input that shows it, and one that says exactly when it does (`PushKeepsLinkedIff`, `PushKeepsIndexIff`, `AlwaysPlacedIffSafe`, `OnlyLateConnectionsRevive`, `NoUpAfterDownIff`, `DownIsLastIff`, `UniqueIffNothingTakenOver`, `NeverGhostsIff`, `ClosedOnceIffNoneLeft`, `NormalIsSameIff`, `HeaderMatchesRfcIff`, `FileComesBackIff` and others below).

Check with `dafny verify dfyconfig.toml`.

## Model

| member | source | states |
|---|---|---|
| SessionEntry.EntryList.Add | sessionserver/session_entry.go:43-54 | the entry joins at the tail: the nodes met from head to tail are the old ones and the new one, and `next` and `previous` stay inverse |
| SessionEntry.EntryList.Remove | sessionserver/session_entry.go:58-71 | exactly one node leaves wherever it stands, the others keep their order and values, and the removed one keeps its own pointers |
| SessionStore.RadiusSessionStore.CheckInsert | sessionserver/session_store.go:81-107 | yes for an unknown id, otherwise exactly if type, session time or timestamp is larger than the stored one; and which entry is replaced |
| SessionStore.RadiusSessionStore.CheckUnique | sessionserver/session_store.go:147-171 | names a live session and an index for which the packet's unique value is taken, and finds none only if there is none |
| SessionStore.RadiusSessionStore.PushPacket | sessionserver/session_store.go:111-242 | the object is where the specification leads after one more packet; a refused packet comes back with the session and the index that are the reason |
| StoreIds.SameIdIff | sessionserver/session_store.go:114-119 | if no text has a slash, two packets have the same session id exactly when every id attribute has the same text in both |
| StoreIds.IdsOfOneAndTwo | sessionserver/session_store.go:114-119 | the id of one attribute is its text, that of two is text, slash, text |
| StoreIds.SlashesCollide | sessionserver/session_store.go:114-119 | two packets with different texts, one with a slash in it, that get the same id |
| StorePackets.TypesOfPackets | sessionserver/session_store.go:121-138 | an access request is of type 1, accounting of status 1, 3 and 2 of types 2, 3 and 4, any other of none |
| StorePackets.GetsInIff | sessionserver/session_store.go:81-107 | a packet changes the store exactly if its type is known, it is the first of its session or later in type, session time or timestamp, and it is no access request for a unique value under which a session is filed that did not stop (also lines 121-171) |
| StorePackets.WhatIsStored | sessionserver/session_store.go:173-191 | only its session changes: it has the configured attributes in order, then the expiry, the time and the id, and expires after the limbo time for types 1 and 4 and after the expiration time otherwise, in milliseconds (also line 217) |
| StorePackets.StoredInList | sessionserver/session_store.go:193-202 | it joins the list of its type |
| SessionStore.RadiusSessionStore.DeleteEntry | sessionserver/session_store.go:245-274 | the entry leaves its list, the map and the indexes of its stored copy, as specified, and its node keeps its `next` |
| SessionStore.RadiusSessionStore.ExpireEntries | sessionserver/session_store.go:277-288 | walking on from nodes just unlinked still meets every entry of the list once, in order |
| SessionStore.RadiusSessionStore.ExpireAllEntries | sessionserver/session_store.go:291-295 | the object is where the specification leads after one more purge |
| SessionStore.RadiusSessionStore.FindByIndex | sessionserver/session_store.go:298-321 | the packets filed under a value, without the stopped sessions if so asked; after final stops and steady values these are exactly the packets that a scan of the sessions finds |
| SessionStore.RadiusSessionStore.AddToIndexes | sessionserver/session_store.go:220-239 | the loop over the configured indexes files the id under each value the packet has |
| SessionStore.RadiusSessionStore.DropFromIndexes | sessionserver/session_store.go:261-270 | the loop takes the id from under each value and forgets values that name nobody |
| StoreTheorems.PushKeepsFiled | sessionserver/session_store.go:193-217 | lists stay without repetition and disjoint, each stored session in the list of its type |
| StoreTheorems.PushKeepsLinkedIff | sessionserver/session_store.go:205-214 | the lists hold nothing but the stored sessions after a push if and only if it does not replace a stopped session |
| StoreRuns.EveryRunIsFiled | sessionserver/session_store.go:111-295 | over every run of packets and purges, every stored session is once in the list of its type, and in no other |
| StoreRuns.LinkedIffStopsAreFinal | sessionserver/session_store.go:193-217 | at every point of a run the lists hold exactly the stored sessions, if and only if no packet of the run replaces a stopped session |
| StoreRuns.ReplacedStopLosesLiveSession | sessionserver/session_store.go:205-214 | a run in which a stopped session comes back, and the purge of the stopped entry removes the live session from the map before it expires, leaving it in its list |
| StoreIndexes.PushKeepsIndexIff | sessionserver/session_store.go:220-239 | index queries equal scans of the sessions after a push if and only if the values under which the id is filed are the ones that get stored |
| StoreRuns.ExactIffSteady | sessionserver/session_store.go:220-239 | with final stops, no index entry dangles and none is missing at any point of a run, purges included, if and only if the indexed values are steady (also lines 261-270, 298-321) |
| StoreRuns.ChangedValueDangles | sessionserver/session_store.go:261-270 | a run that leaves an index entry for a session that no longer exists |
| StoreIndexes.InsertKeepsUniqueIff | sessionserver/session_store.go:147-171 | an insertion keeps unique values unique if and only if the new entry is stopped or no other live session has its values |
| StoreIndexes.AccessRequestKeepsUnique | sessionserver/session_store.go:147-171 | the check made through the indexes is enough for access requests |
| StoreRuns.UniqueIffNothingTakenOver | sessionserver/session_store.go:147-171 | at every point of a run, purges included, no two live sessions share a unique value, if and only if no packet that gets in makes a live session with a unique value of another one (also lines 217-239) |
| StoreRuns.EveryRunIsUnique | sessionserver/session_store.go:147-171 | so it is for every run in which accounting that gets in and is no stop repeats the unique values of its live session or claims values no live session has, whatever the access requests claim (also lines 217-239) |
| StoreRuns.StartsShareAValue | sessionserver/session_store.go:147-171 | a run of two accounting starts that leaves two live sessions with one unique value |
| StoreIndexes.RejectionIsJustified | sessionserver/session_store.go:147-171 | a packet is rejected exactly if a scan finds a live session with a unique value it claims, and leaves no trace |
| StoreExpiry.ExpireAllRemovesOverdue | sessionserver/session_store.go:277-295 | the purge removes exactly the sessions at or below the cutoff of their list, survivors keep their order and exact indexes stay exact |
| StorePackets.PurgeTakes | sessionserver/session_store.go:277-295 | a purge takes a session out of the map exactly if it expires, in milliseconds, by the limbo date for types 1 and 4 and by the expiration date otherwise |
| StoreExpiry.PushKeepsOrdered | sessionserver/session_store.go:177-202 | with a clock that does not go back, a push keeps the lists sorted by expiry, whatever it replaces |
| StoreRuns.EveryRunIsOrdered | sessionserver/session_store.go:177-202 | so over every run, purges included (also lines 277-295) |
| StoreTraffic.NothingAfterStopIsFinal | sessionserver/session_store.go:205-214 | if no packet is later than a stop before it for the same session, no run replaces a stopped session, so lists and sessions agree |
| StoreTraffic.ValuesThatStayAreSteady | sessionserver/session_store.go:220-239 | if the indexed attributes are stored, and a value, once there or once accounting began, stays the same in the later packets of its session, the indexes are exact over every run |
| StoreTraffic.OrderlyTrafficKeepsOrder | sessionserver/session_store.go:111-242 | conditions on the packets, and updates that find their session live or claim free values, give linked lists, exact indexes and unique values at the end of any run; repeated packets, packets that come too late to get in, and lone stops do no harm |
| Convergence.StoresConverge | sessionserver/session_store.go:81-107 | two stores that were told the same accounting facts, in any order, any number of times, at any times, signed by any servers and whatever else they are configured with, store the same packet for each id up to the attributes that stores and servers add, if the facts about each session form a chain (also lines 121-145, 217) |
| Convergence.ServersConverge | sessionserver/session_server.go:355-361 | so for servers with different names that sign what they store |
| Convergence.CopyingKeepsFacts | sessionserver/session_server.go:299-306 | a copy with the stored attributes tells a store the same as the packet, if those that make ids, types and times are stored |
| Convergence.TwoPacketsCommuteIff | sessionserver/session_store.go:81-107 | two packets of a session can be swapped exactly when one of them alone is the more recent, or both tell the same |
| SessionServer.RadiusSessionServer.HandlePacket | sessionserver/session_server.go:255-328 | the packet is signed and pushed; the reply accepts it unless it claims a unique value of a live session, and then denies it with the name of an index that justifies this; copies go to exactly the destinations not on its list of servers, stored or not (also lines 355-384) |
| Replication.SignatureIs | sessionserver/session_server.go:355-361 | a server signs by adding an attribute `SessionStore-SeenBy` with its name, which is then the last on the packet's list of servers |
| Replication.SentOnIff | sessionserver/session_server.go:275-306 | only packets of code 4 that at most four servers signed are sent on, as a copy with the configured attributes, to each destination that is not one of those servers |
| Replication.TrafficIsBounded | sessionserver/session_server.go:275-306 | one packet causes at most d + d^2 + d^3 + d^4 sends in any network with at most d destinations each, whatever the order, the losses and the loops |
| Replication.NoServerTwice | sessionserver/session_server.go:275-286 | no chain of forwards is longer than five servers or meets one twice (also lines 359-362) |
| Replication.EveryChainIsFollowed | sessionserver/session_server.go:275-306 | when nothing is lost and nothing is left to deliver, the chains followed are exactly those of at most five servers with different names |
| Replication.CopiesTellTheSame | sessionserver/session_server.go:275-306 | every copy of a packet, whatever way it took through the network, tells a store the same facts |
| ReplicaStores.ReplicasAgree | sessionserver/session_server.go:275-306 | packets come in anywhere in a network: when nothing was lost and nothing is under way, two servers that all of them reach, however they were configured otherwise and in whatever order and however often they handled what came, store the same for every session (also lines 355-384) |
| DiamPeer.DiameterPeer.EventLoopTurn | diampeer/diam_peer.go:338-730 | one turn of the loop does what the specification's step does, so the object stays on a run |
| PeerWatchdog.CountsUnanswered | diampeer/diam_peer.go:708-725 | at any point of any run the count is the number of watchdogs handled less the good answers handled while one was unanswered (also lines 651-662) |
| PeerWatchdog.TickShutsDownIff | diampeer/diam_peer.go:708-725 | a watchdog shuts the peer down exactly when more than two are unanswered, and always sends a request (also line 27) |
| PeerWatchdog.AnsweringPeerStaysUp | diampeer/diam_peer.go:708-725 | a peer for which a good answer is handled between any two watchdogs is never shut down by one (also lines 651-662) |
| PeerWatchdog.TickQueues | diampeer/diam_peer.go:357-365 | a tick makes a watchdog for an engaged peer, gives up a peer that is not engaged yet, and does nothing afterwards |
| PeerOutcomes.EveryOutcomeHasItsCause | diampeer/diam_peer.go:484-706 | over any run a caller is told an answer exactly if one was handled for its outstanding request, of a timeout if its cancellation was, of a cancellation if the peer went down, that it was not sent if the peer could not or did not write it, and that it is invalid if it was no request or of the base protocol (also lines 781-803, 893-916) |
| PeerOutcomes.ToldByTurn | diampeer/diam_peer.go:484-706 | what one turn tells each channel, message by message (also lines 893-932) |
| PeerOutcomes.PutByTurn | diampeer/diam_peer.go:407-557 | what one turn writes or reports: base messages from connected on, others only when engaged, up only before, down only once before the end |
| PeerOutcomes.QueuedByTurn | diampeer/diam_peer.go:378-725 | what one turn sends to the loop itself: the requests and answers of the base protocol and what brings the peer up or down |
| PeerOutcomes.StatusByTurn | diampeer/diam_peer.go:378-725 | which of the five statuses one turn leads to |
| PeerOutcomes.PostedByEvent | diampeer/diam_peer.go:735-803 | what the callers, the reader, the connection, the handlers and the timers send to the loop (also lines 302-308, 357-365, 527-540, 604-620) |
| PeerOutcomes.ActiveGetsEngaged | diampeer/diam_peer.go:378-405 | an active peer whose connection is established and whose request is answered well is engaged after six events, having written its request and reported up for its host (also lines 454-469, 629-650) |
| PeerOutcomes.PassiveGetsEngaged | diampeer/diam_peer.go:573-584 | a passive peer that reads a good request is engaged after four events, having written the answer and reported up for the host in the request (also lines 454-469, 808-854) |
| PeerOutcomes.RequestIsWritten | diampeer/diam_peer.go:484-557 | a request handed to an idle engaged peer is written and waits with a timer of its own (also lines 781-803) |
| PeerOutcomes.RequestIsAnswered | diampeer/diam_peer.go:667-691 | its answer goes to its caller, to nobody else, and stops the timer |
| PeerOutcomes.RequestTimesOut | diampeer/diam_peer.go:693-706 | if the timer fires first the caller is told of a timeout and the request is forgotten (also lines 527-540) |
| DiamPeer.DiameterPeer.HandleEgress | diampeer/diam_peer.go:484-557 | status check, shutdown after a disconnect answer, duplicate check, write, timer and registration, as specified |
| DiamPeer.DiameterPeer.HandleCER | diampeer/diam_peer.go:808-854 | which answer an exchange of capabilities gets and whether the peer becomes engaged |
| DiamPeer.DiameterPeer.DiameterExchange | diampeer/diam_peer.go:781-803 | a base message or an answer is turned away at once, another request is queued with an obligation |
| DiamPeer.DiameterPeer.CancelAll | diampeer/diam_peer.go:893-916 | the loop over the map in any order tells every outstanding caller, stops the armed timers and gives back their waits, as the specification does at one stroke |
| DiamPeer.CancelledOneByOne | diampeer/diam_peer.go:893-916 | cancelling one request first changes nothing in what cancelling all of them gives |
| PeerTheorems.EveryChannelIsInOnePlace | diampeer/diam_peer.go:484-557 | at any point of any run each channel handed in is queued once, outstanding once, or was told once, and only one of these; it was closed as often as it was told, and an answer has the identifier that was asked (also lines 667-706, 781-803, 893-916) |
| PeerHops.CrashedIff | diampeer/diam_peer.go:494-499 | a run ends in the panic over a duplicate hop id if and only if its last event handles a request that could be sent under a hop id that is outstanding |
| PeerHops.DistinctHopsNeverCrash | diampeer/diam_peer.go:494-499 | if the hop ids handed in are different and the peer's own requests keep away from them, no run ends so |
| PeerTimers.WaitGroupCountsObligations | diampeer/diam_peer.go:527-556 | the wait group is the number of connecting, handling and leaving goroutines, queued waited sends and live timers, so never negative (also lines 260, 604-620, 674-676, 742, 801, 900-902) |
| PeerTimers.OutstandingRequestsEnd | diampeer/diam_peer.go:527-544 | every outstanding request has a live timer of its own or its cancellation in the queue (also lines 693-706) |
| PeerClosing.ClosedPeerAnsweredEverybody | diampeer/diam_peer.go:311-330 | when the event loop has ended, every channel ever handed in got one message and one close (also lines 893-916) |
| PeerStatus.EveryRunIsOrderly | diampeer/diam_peer.go:454-491 | one PeerUp at most, nothing but base messages written before it, a shutdown on its way while terminating, outstanding requests only while engaged or terminating (also lines 506-507, 574-582, 644-656, 712-715, 919-931) |
| PeerStatus.OnlyLateConnectionsRevive | diampeer/diam_peer.go:378-402 | a step leads back from termination exactly when it handles a connection established too late |
| PeerStatus.StaysDownIff | diampeer/diam_peer.go:390 | once terminating a peer stays so, over a whole run, if and only if no late connection is handled |
| PeerStatus.DownIsFinal | diampeer/diam_peer.go:407-477 | without a late connection no PeerUp follows a PeerDown (also lines 919-931) |
| PeerStatus.NoUpAfterDownIff | diampeer/diam_peer.go:454-468 | over a run the peer is reported up after down exactly when a late connection is handled after the report and a later event completes its handshake (also lines 378-402) |
| PeerStatus.DownIsLastIff | diampeer/diam_peer.go:919-931 | over a run, being reported down is the last the peer reports, if and only if no late connection or relapse after the report is followed by an event that reports (also lines 378-477) |
| PeerStatus.DownTwice | diampeer/diam_peer.go:656-662 | a run in which a bad watchdog answer, handled after the shutdown, makes the peer report down twice |
| PeerStatus.LateConnectionComesUp | diampeer/diam_peer.go:378-402 | a run in which a peer is reported down and then up |
| SocketIds.FirstFreeIsFirst | radiusclient/radius_client_socket.go:441-462 | the search stops at the first free identifier and fails only after looking at all of them |
| SocketIds.EveryIdIsVisitedOnce | radiusclient/radius_client_socket.go:441-462 | one round from any start visits each of 1 to 255 once, the wrap included |
| SocketIds.NextFreeInOrder | radiusclient/radius_client_socket.go:426-463 | the identifier found is the next free one above the last one given, or, if those up to 255 are taken, the lowest free one from 1 on |
| SocketRuns.AllocatorFindsFreeId | radiusclient/radius_client_socket.go:426-463 | in every reachable state a fresh request gets an identifier in 1 to 255 that is not outstanding for its endpoint, or none exactly when all 255 are |
| SocketRuns.AllocatorGoesRound | radiusclient/radius_client_socket.go:426-463 | so in any reachable state, seen from the last identifier given for the endpoint, which the new one then becomes |
| SocketRuns.NoMissingMap | radiusclient/radius_client_socket.go:299-349 | no run ever registers a request at an endpoint without a map, which would end the process |
| SocketRuns.WaitGroupCountsObligations | radiusclient/radius_client_socket.go:280-351 | the wait group is the number of queued requests, live timers and leaving goroutines, so never negative (also lines 233-235, 416, 473-475) |
| SocketBooks.StepBooks | radiusclient/radius_client_socket.go:174-368 | what each event does to the books is one of eleven operations on them |
| SocketLedger.ApplyIsCleanIff | radiusclient/radius_client_socket.go:278-365 | such an operation keeps the books clean (channels in one place, retransmissions tied to their requests, requests covered by a timer or a message) exactly when it neither removes one whose retransmission is on its way nor fails to send a retransmission (also lines 190-213, 216-276) |
| SocketTheorems.CleanIffSafe | radiusclient/radius_client_socket.go:303-349 | a run is clean at every point if and only if none of its events is such a hazard |
| SocketOutcomes.AlwaysPlacedIffSafe | radiusclient/radius_client_socket.go:278-365 | in a run that has ended, every channel was queued, outstanding or told, one of these and once, in every state, if and only if no event was a hazard (also lines 190-213, 216-276, 466-490) |
| SocketOutcomes.LateStaysOrIsMisplaced | radiusclient/radius_client_socket.go:324-351 | a retransmission on its way for a caller that has its answer stays so until it is handled, and then the channel is in two places |
| SocketOutcomes.ForgottenForever | radiusclient/radius_client_socket.go:332-345 | a caller with nothing queued, outstanding or to be sent again is never told and its channel never closed |
| SocketReuse.CallerIsForgotten | radiusclient/radius_client_socket.go:332-345 | a run of 256 requests in which a retransmission, stalled until its identifier is used again, takes the place of another request, whose caller is forgotten |
| SocketTheorems.OneOutcomePerRequest | radiusclient/radius_client_socket.go:278-365 | without hazards each channel handed in is queued, outstanding or answered, one of these and once; closed as often as told, and answered from the endpoint asked (also lines 216-276, 466-490) |
| SocketTheorems.SingleTriesAreSafe | radiusclient/radius_client_socket.go:324-341 | requests with one try never meet a hazard, so all of this holds for them without a condition |
| SocketTheorems.ClosedSocketAnsweredEverybody | radiusclient/radius_client_socket.go:154-170 | when the event loop of a safe run has ended every channel was told once and closed once (also lines 187-190) |
| SocketTwice.RetryOfToldChannel | radiusclient/radius_client_socket.go:278-349 | handling a retransmission for a channel already told makes that request outstanding again, or tells the channel a second time |
| SocketTwice.ToldTwice | radiusclient/radius_client_socket.go:332-345 | a run in which the response overtakes the retransmission, both are answered, and one channel gets two messages and two closes |
| RadiusClientSocket.RadiusClientSocket.GetNextRadiusId | radiusclient/radius_client_socket.go:426-463 | the loop finds what the specification's search finds and moves the hint there |
| RadiusClientSocket.RadiusClientSocket.CancelAll | radiusclient/radius_client_socket.go:466-490 | the nested loops in any order tell every outstanding caller and stop every armed timer, as the specification does at one stroke |
| RadiusClientSocket.CancelledOneByOne | radiusclient/radius_client_socket.go:466-490 | cancelling one request first changes nothing in what cancelling all of them gives |
| RadiusClientSocket.RadiusClientSocket.EventLoopTurn | radiusclient/radius_client_socket.go:174-368 | one turn does what the specification's step does, so the object stays on a run |
| RadiusClientSocket.RadiusClientSocket.HandleTransmit | radiusclient/radius_client_socket.go:278-351 | identifier, marshalling, write, timer and registration, with the three ways to fail |
| RadiusClientSocket.RadiusClientSocket.HandleResponse | radiusclient/radius_client_socket.go:216-276 | a response settles the request of its endpoint and identifier, with the answer or what was wrong with it, and nothing else |
| RadiusClientSocket.RadiusClientSocket.SendRadiusRequest | radiusclient/radius_client_socket.go:403-419 | a packet that is no request is turned away at once, another one queued with an obligation |
| RadiusClientSocket.RadiusClientSocket.TimerActs | radiusclient/radius_client_socket.go:324-341 | a cancellation after the last try, otherwise the same request under the same identifier with one try less |
| SocketTries.WrittenAtMost | radiusclient/radius_client_socket.go:324-341 | over any run a request handed in with n tries is written at most n times, or once where n is below one |
| SocketTries.TimeoutAfterAllTries | radiusclient/radius_client_socket.go:324-341 | in a run without hazards it was written exactly that often when its caller is told of a timeout, and until its caller is told anything the writes made and those still queued or timed are that many |
| SocketCauses.EveryOutcomeHasItsCause | radiusclient/radius_client_socket.go:174-368 | over any run a caller is told an answer, or what was wrong with it, exactly if a response was handled for its outstanding request, of a timeout if its cancellation was, of a cancellation if the socket went down, and otherwise why it was not sent: no identifier among the 255, not marshalled, not written, or no request (also lines 403-419) |
| SocketCauses.ToldByTurn | radiusclient/radius_client_socket.go:174-368 | what one turn tells each channel, message by message |
| SocketCauses.PutByTurn | radiusclient/radius_client_socket.go:278-351 | what one turn writes: the request under its identifier if it has one and under a free one otherwise, unless something hinders it (also lines 187-214) |
| SocketCauses.QueuedByTurn | radiusclient/radius_client_socket.go:174-368 | a turn sends nothing to the loop itself but, for a request that could not be written, the command to go down |
| SocketCauses.LifeByTurn | radiusclient/radius_client_socket.go:187-214 | a failed read or the command to go down shuts the socket, only the command ends its reader quietly, and only the close ends the loop |
| SocketCauses.PostedByEvent | radiusclient/radius_client_socket.go:324-341 | what the callers, the reader and the timers send to the loop: a failed read only while the socket was not set down, and from a timer the same request with one try less, or its cancellation after the last (also lines 370-423) |
| SocketCauses.NothingWrittenAfterDown | radiusclient/radius_client_socket.go:187-214 | over any run nothing is written after down was reported, which it was exactly if the socket is shut (also lines 290-305) |
| DiameterTheorems.EncodesItsLenIff | core/diameter_AVP.go:276-538 | an attribute takes a multiple of four bytes, and the writer emits exactly as many as it says if and only if every address in it has four or sixteen bytes (also lines 568-655) |
| DiameterTheorems.DecodeUndoesEncode | core/diameter_AVP.go:42-272 | at any depth of groups, whatever follows, the reader makes the attribute again, reports its size and leaves exactly what followed (also lines 276-538) |
| DiameterTheorems.DecodeUndoesEncodeAll | core/diameter_AVP.go:42-272 | so for the attributes of a group or a message (also lines 276-538) |
| DiameterTheorems.NormalIsSameIff | core/diameter_AVP.go:276-538 | what comes back is what was written exactly when it holds no empty group and every value is in the range and form of its type |
| DiameterTheorems.WritableAgainIff | core/diameter_AVP.go:276-538 | what was read can be written again exactly when nothing in it was an empty group; otherwise asking for its size ends the process (also lines 568-642) |
| DiameterTheorems.AddressesStay | core/diameter_AVP.go:276-538 | an address that comes back in another form is the same address |
| DiameterTheorems.ThreeBytesComeBackIff | core/diameter_AVP.go:82 | a size comes back from its three bytes exactly below 256 times 65535 (also lines 306-314) |
| DiameterTheorems.ThreeBytesMatchRfcIff | core/diameter_AVP.go:306-314 | the three bytes are those of section 4.1 of RFC 6733 exactly for sizes below 65535 |
| DiameterMessages.MessageEncodesItsLenIff | core/diameter_message.go:188-291 | a message takes the bytes it announces exactly when its addresses are proper (also lines 316-323) |
| DiameterMessages.DecodeUndoesEncodeMessage | core/diameter_message.go:67-163 | the reader makes the message again and stops where it ends, whatever comes next (also lines 188-291) |
| DiameterMessages.DecodeUndoesEncodeStream | core/diameter_message.go:67-163 | messages written one after the other are read as the same messages, however many (also lines 188-291) |
| DiameterMessages.HeaderMatchesRfcIff | core/diameter_message.go:188-260 | the header is that of section 3 of RFC 6733 exactly for sizes and command codes below 65535 and equal identifiers, because the two are in the other order |
| DiameterWire.MessageLayout | core/diameter_message.go:188-290 | the bytes of a message in order: version 1, size, flags, command, application, end-to-end and hop-by-hop identifier, attributes |
| DiameterWire.ThreeBytesAre | core/diameter_AVP.go:306-314 | the three bytes of a size or a command code |
| DiameterWire.AvpLayout | core/diameter_AVP.go:276-538 | the bytes of an attribute in order: code, flags, size without padding, vendor if there is one, value, zeros up to a multiple of four; a group is its attributes one after the other |
| DiameterWire.LeafBytes | core/diameter_AVP.go:331-516 | the bytes of each type of value, addresses behind their family |
| DiameterWire.HeaderReads | core/diameter_AVP.go:42-105 | any bytes read as the header of an attribute: eight, or twelve if the first flag is set, with code, flags, size and vendor where they stand |
| DiameterWire.ReadsAsLeaf | core/diameter_AVP.go:108-272 | an attribute that is no group is read as its header and, behind it, the value by its type; the size is the header's and the value's (also lines 42-105) |
| DiameterWire.LeafReads | core/diameter_AVP.go:108-272 | any bytes read as a value: an error exactly if some are missing, octets and texts without their padding, the two single address types with it, numbers of their width whatever is announced |
| DiameterWire.AddressReads | core/diameter_AVP.go:184-215 | any bytes read as an address: four for family 1, sixteen for any other, and two bytes of padding |
| DiameterWire.MessageHeaderReads | core/diameter_message.go:67-141 | any twenty bytes read as the header of a message: size, flags, command, application and identifiers where they stand |
| DiameterWire.MessageReads | core/diameter_message.go:67-163 | any bytes read as a message: an error without a whole header or whole attributes; the process ends if the attributes end elsewhere than the message |
| DiameterStreams.ComputeDataLen | core/diameter_AVP.go:568-642 | the recursive sum of sizes, and nothing exactly when asking for it ends the process |
| DiameterStreams.WriteTo | core/diameter_AVP.go:276-538 | appends the encoding and returns the size; an error for a value of another type; ends the process only for an attribute without a size, so the final count never does |
| DiameterStreams.WriteMessage | core/diameter_message.go:188-291 | when a message is written, when it is an error, and when the process ends: for an attribute without a size, or a request with attributes whose command is unknown |
| DiameterStreams.ReadFrom | core/diameter_AVP.go:42-272 | reading an attribute off a stream is decoding what is in it, with the same rest, errors and ends of the process |
| DiameterStreams.ReadMessage | core/diameter_message.go:67-163 | so for a message |
| RadiusHiding.ShowUndoesHide | core/radius_AVP.go:1003-1086 | for any hash, secret, authenticator and salt, what was hidden is shown again, filled up with zeros to whole blocks |
| RadiusHiding.OtherSeedShowsIff | core/radius_AVP.go:1003-1086 | with another authenticator or salt it comes back exactly when the two first digests are the same, or there is nothing to show |
| HidingBytes.HiddenAt | core/radius_AVP.go:1003-1042 | each hidden byte is the exclusive or of the payload's, or of zero behind its end, with that of the digest of the secret and the seed, or of the secret and the block hidden before |
| HidingBytes.XorAt | core/radius_AVP.go:1029-1036 | a bit of the exclusive or is set exactly if it is set in one of the two bytes |
| RadiusHiding.Encrypt1 | core/radius_AVP.go:1003-1042 | the forward loop over blocks computes the recursive hiding |
| RadiusHiding.Decrypt1 | core/radius_AVP.go:1045-1086 | the backward loop over blocks computes the recursive showing |
| RadiusTheorems.CountsItsLenIff | core/radius_AVP.go:334-615 | the writer counts the size it announced, for every value, exactly for the options it treats consistently (also lines 637-702) |
| RadiusTheorems.EmitsWhatItCounts | core/radius_AVP.go:456-467 | it emits what it counts, but for a tagged integer in the clear, which takes two bytes more |
| RadiusTheorems.DecodeUndoesEncode | core/radius_AVP.go:52-330 | hidden, tagged, salted, with an inner length or of a vendor: the reader makes the attribute again and leaves what followed if there are data and the hidden type can do without its length, and reports an error exactly otherwise (also lines 334-615) |
| RadiusTheorems.NormalIsSameIff | core/radius_AVP.go:52-330 | a value comes back unchanged exactly when it is in its range and form and without zeros at the ends of a text |
| RadiusTheorems.TaggedIntegerLosesItsLowWord | core/radius_AVP.go:456-467 | a tagged integer in the clear comes back without its low word, and its last two bytes are taken for the next attribute |
| RadiusWire.AttributeLayout | core/radius_AVP.go:334-411 | the bytes of an attribute in order: code and size, behind code 26 and the vendor for one of a vendor, tag, salt, data; it is as long as it says but for a tagged integer in the clear |
| RadiusWire.PayloadBytes | core/radius_AVP.go:412-584 | the bytes of each type of value |
| RadiusWire.DataBytes | core/radius_AVP.go:585-606 | hidden data are the payload, behind its length if it carries one, hidden over authenticator and salt |
| RadiusPacketWire.FragmentAt | core/radius_packet.go:184-218 | a concatenated attribute longer than 255 bytes is cut into pieces of 240 bytes, any other stays whole |
| RadiusWire.BadHeadersAreRejected | core/radius_AVP.go:52-120 | too few bytes for a header, and an inner size of a vendor's attribute that does not fit the outer one, are errors |
| RadiusWire.AnyBytesRead | core/radius_AVP.go:52-330 | any bytes read as an attribute in the clear: no data, missing bytes and addresses of another size are errors, otherwise code, vendor, size and rest are where they stand |
| RadiusWire.ClearDataReads | core/radius_AVP.go:177-325 | any bytes read as a value in the clear, by type |
| RadiusWire.NumberReads | core/radius_AVP.go:197-229 | four or eight bytes are read as a number in two's complement |
| RadiusPackets.FragmentsFit | core/radius_packet.go:184-218 | every fragment of a plain long attribute fits its length byte |
| RadiusPackets.JoiningUndoesSplitting | core/radius_packet.go:119-132 | merging what was split gives what merging the packet as it was gives (also lines 184-218) |
| RadiusPackets.DecodeUndoesEncodePacket | core/radius_packet.go:70-142 | the reader makes the packet again with its authenticator, adjacent attributes of the same concatenated kind merged, and leaves what followed (also lines 164-322) |
| RadiusPackets.ResponsesValidate | core/radius_packet.go:277-314 | for any hash every response passes the check of who holds its request's authenticator and the secret (also lines 693-710) |
| RadiusPackets.RequestsValidate | core/radius_packet.go:246-255 | for any hash every request but an access request passes the check of who holds the secret (also lines 277-314, 714-731) |
| RadiusPacketWire.PacketBegins | core/radius_packet.go:222-240 | the first four bytes: code, the identifier given for codes 1, 4, 40 and 43 and the packet's own for others, size |
| RadiusPacketWire.PacketIsAsLongAsItSays | core/radius_packet.go:235-240 | the size announced is the size sent, but for tagged integers in the clear in an access request (also lines 270-322) |
| RadiusPacketWire.PacketIsSigned | core/radius_packet.go:246-255 | the authenticator is the new one for code 1, the digest over sixteen zeros for codes 4, 40 and 43, and the digest over the packet's authenticator for others; the packet keeps what was sent (also lines 277-314) |
| RadiusPacketWire.PacketIsHidden | core/radius_packet.go:246-268 | its attributes are hidden with the new authenticator for code 1, sixteen zeros for codes 4, 40 and 43 and its own authenticator for others |
| RadiusPacketWire.SignedRequestsValidate | core/radius_packet.go:693-731 | packets of codes 4, 40 and 43 validate over sixteen zeros, others but access requests over the authenticator of their request (also lines 246-255, 277-314) |
| RadiusPacketWire.AnyPacketReads | core/radius_packet.go:70-142 | any bytes read as a packet: an error without a whole header; attributes are shown with the received authenticator for codes 1, 4, 40 and 43 and with the given one otherwise; the process ends if they end elsewhere than the packet |
| RadiusPacketWire.MergedIff | core/radius_packet.go:119-132 | a received attribute is merged into the last one exactly if it is concatenated and has its code and its vendor |
| RadiusPacketWire.NothingLeftToMerge | core/radius_packet.go:119-132 | no attribute of a packet that was read could be merged into the one before |
| RadiusStreams.WriteAvp | core/radius_AVP.go:334-615 | appends the encoding; an error for a value too long or of another type; ends the process exactly where the count is not the size or there is no size |
| RadiusStreams.ReadAvp | core/radius_AVP.go:52-330 | reading an attribute off a stream is decoding what is in it, with the same rest, errors and ends of the process |
| RadiusStreams.SplitAvp | core/radius_packet.go:184-218 | the loop cuts a long attribute into the specified fragments |
| RadiusStreams.WritePacket | core/radius_packet.go:164-322 | when a packet is written, its bytes, and the packet as it is left: split and with the authenticator that was sent |
| RadiusStreams.NoShortIntegersIff | core/radius_packet.go:277-314 | the bytes put together are as many as announced exactly if there is no tagged integer in the clear, so only such a packet ends the process there |
| RadiusStreams.ReadPacket | core/radius_packet.go:70-142 | reading a packet off a stream, merging as it goes, is decoding what is in it |
| RadiusStreams.ValidateAuthenticator | core/radius_packet.go:693-731 | the loop over the sixteen bytes says whether they are the digest |
| DiameterRouter.DiameterRouter.HandlePeerUp | router/diameter_router.go:269-310 | which of two peers of a host keeps the entry and which is told to go down, as specified |
| RouterContest.EngagedPeerWins | router/diameter_router.go:269-310 | from a state in which a peer is the engaged entry of a host it stays exactly that until it reports down, across updates and a shutdown; every other peer that reports up for the host in between is told to go down, and no one else is by its report (also lines 311-355, 525-566) |
| RouterContest.EngagedPeerKeepsEntry | router/diameter_router.go:272-277 | when another peer reports up for a host with an engaged peer only that other one is told |
| RouterContest.ReporterGetsFreeEntry | router/diameter_router.go:278-297 | where the entry is not engaged the reporting peer gets it and the one it replaces is told to go down; a terminated router tells the new one too (also lines 299-303) |
| RouterContest.StrangerGoesDown | router/diameter_router.go:304-308 | a peer that reports up for a host that the table does not have is told to go down |
| DiameterRouter.DiameterRouter.HandlePeerDown | router/diameter_router.go:311-355 | every entry of the peer is emptied, and the end signalled when a terminated router has no peer left |
| DiameterRouter.DiameterRouter.HandleSetDown | router/diameter_router.go:228-257 | every peer of the table is told, and the end signalled at once if there is none |
| DiameterRouter.DiameterRouter.UpdatePeersTable | router/diameter_router.go:525-566 | the two loops, in any order of the maps, give the specified table |
| RouterContest.AfterUpdate | router/diameter_router.go:525-566 | an update leaves peers and their entries alone, tells those of hosts no longer configured, makes a new peer for each host to connect to that has none, and an empty entry for the other hosts |
| RouterContest.OnlyUnconfiguredAreTold | router/diameter_router.go:525-539 | it tells nobody else |
| RouterContest.AfterDown | router/diameter_router.go:311-336 | a peer that goes down leaves its entries empty and the others as they are |
| PeersTable.EveryUpPeerIsResolved | router/diameter_router.go:269-328 | over every run a peer that reported up and not down is the engaged entry of its host or was told to go down |
| PeersTable.OnePeerPerHost | router/diameter_router.go:269-310 | no two peers up for one host are both left alone |
| PeersTable.ShutdownReachesEveryPeer | router/diameter_router.go:228-257 | after a shutdown everybody in the table or up was told to go down, and as long as the end was not signalled somebody is left to report (also lines 269-355) |
| PeersTable.NoGhostsIff | router/diameter_router.go:269-355 | a step puts a peer that is down into the table exactly if that peer reports up after down and wins its entry |
| PeersTable.NeverGhostsIff | router/diameter_router.go:269-355 | at no point of a run an entry holds a peer that is down, if and only if no peer that is down gets an entry by reporting up |
| PeersTable.GhostStays | router/diameter_router.go:269-355 | a run of an update, a down and an up that leaves a peer that is down as the engaged entry of its host |
| PeersTable.NoEntryHoldsADownPeer | router/diameter_router.go:269-355 | if no peer reports up after down, no entry ever holds a peer that is down |
| RouterClosing.ClosesIff | router/diameter_router.go:239-257 | an event closes the done channel exactly if, before it, the router is shut down with an empty table, or is terminated and the peer going down is the only one left (also lines 340-355) |
| RouterClosing.ClosedAtMostOnceIff | router/diameter_router.go:239-257 | over a run it is closed at most once exactly when no event meets this after another one did (also lines 340-355) |
| RouterClosing.ClosedOnceIffNoneLeft | router/diameter_router.go:239-257 | when all peers are down in the end, each reporting down once and never up again, it was closed at most once exactly when no peer was left whenever the table of the terminated router was empty (also lines 340-355) |
| RouterClosing.OrderlyClosesOnce | router/diameter_router.go:228-257 | shut down once while every peer has an entry or is down, with no connection accepted and no entry contested afterwards, it closes the channel once, when the last peer is down (also lines 340-355) |
| RouterPeers.FinalPeersEndWell | router/diameter_router.go:228-257 | if no peer's own run has a late connection or a relapse after going down that leads to another report, no entry holds a peer that is down, and an orderly shutdown closes the channel once (also lines 269-355) |
| RouterClosing.ClosesTwice | router/diameter_router.go:256 | a run that closes it twice, which ends the process (also lines 354) |
| PeersTable.HostsAreThoseOfTheLastUpdate | router/diameter_router.go:525-566 | at any point of a run the table has exactly the hosts configured at the last update and those that had a peer then; that an unconfigured peer goes down removes none (also lines 330-336) |
| CdrTheorems.FileComesBackIff | cdrwriter/bigquery_format.go:54-84 | in whatever order the fields are written, the records of a file come back, times to the second, exactly when none is empty and all values are of the four kinds, not empty as a text and, like the names, without newlines (also lines 87-134) |
| CdrTheorems.ProperRecordComesBack | cdrwriter/bigquery_format.go:54-84 | a proper record is one token whatever follows, and parses into the record (also lines 87-134) |
| CdrTheorems.FieldInFile | cdrwriter/bigquery_format.go:54-84 | a field is a line with its name, a line with T, I, O or S, and a line with its value; a record ends with an empty line |
| CdrTheorems.ImproperValueEndsParse | cdrwriter/bigquery_format.go:87-134 | a value that its text cannot hold ends the process when its token is parsed |
| CdrTheorems.NumbersCannotBeWrittenAgain | cdrwriter/bigquery_format.go:54-84 | a record with a number that came back cannot go through a second backup (also lines 87-134) |
| CdrWriter.Print | cdrwriter/bigquery_format.go:54-84 | the loop over the map in some order prints the record with its fields in an order of all its names |
| CdrWriter.SplitAt | cdrwriter/bigquery_writer.go:306-330 | the token up to the first empty line, the rest at the end of the file, or a request for more |
| CdrWriter.ScanAll | cdrwriter/bigquery_writer.go:286-293 | whatever the chunks a file is read in, the tokens are those of the whole (also lines 306-330) |
| CdrWriter.NewWritableCdrFromStrings | cdrwriter/bigquery_format.go:87-134 | the index-driven loop parses as specified, and where it runs past the lines |
| CdrWriter.ProcessBackupFile | cdrwriter/bigquery_writer.go:271-303 | the batch is what the tokens of the whole file parse into |
| CdrWriter.BackupAndProcess | cdrwriter/bigquery_writer.go:176-191 | printing, reading in any chunks and parsing gives the records back exactly when all of them are proper (also lines 271-303) |
| Decimal.AtoiUndoesFormatInt | cdrwriter/bigquery_format.go:60-69 | a number printed in decimal is read as itself (also lines 105-119) |
| Decimal.FormatIntDigits | cdrwriter/bigquery_format.go:60-69 | decimal text has the digits of the number from the highest on, without a leading zero, behind a minus for what is negative |
| Decimal.DigitsAreRead | cdrwriter/bigquery_format.go:105-119 | digits are read as a number behind either sign or none, as far as 64 bits go |
| Decimal.OthersAreZero | cdrwriter/bigquery_format.go:105-119 | any other text is read as zero |
| Decimal.HexAt | cdrwriter/bigquery_format.go:70-73 | hexadecimal text has two digits in lower case for each byte |

## Left out

Hypotheses and simplifications:

- StoreRuns.ExactIffSteady: assumes that no stopped session is replaced, because otherwise lists and sessions come apart (`ReplacedStopLosesLiveSession`).
- StoreRuns.EveryRunIsUnique: assumes that accounting repeats the unique values of a live session or claims free ones, because the source checks uniqueness only for access requests (`StartsShareAValue`); `UniqueIffNothingTakenOver` needs no assumption.
- StoreTraffic.OrderlyTrafficKeepsOrder: that an update that gets in finds its session live, or claims free values, is a condition on the run, because it depends on which access requests were admitted and on the purges.
- Convergence.StoresConverge: assumes that the facts about a session form a chain in type, session time and timestamp together, and that nothing expires, because the source takes a packet that is larger in any one of the three; `TwoPacketsCommuteIff` says when two packets need no such assumption.
- Replication.EveryChainIsFollowed: assumes that servers keep the list of servers among the attributes they copy and that destinations are configured under the names the servers sign with.
- Replication.TrafficIsBounded: counts the copies a server makes; that the RADIUS client sends a copy again when it gets no answer is not a step here.
- PeerTheorems.EveryChannelIsInOnePlace: stops where the event loop panics over a duplicate HopByHopId, which ends the process; `CrashedIff` says when that is.
- SocketTheorems.OneOutcomePerRequest: assumes a run without hazards; `AlwaysPlacedIffSafe` says that a run that has ended had each channel in one place all along exactly then, `ToldTwice` and `CallerIsForgotten` what happens otherwise.
- DiameterTheorems.DecodeUndoesEncode: assumes addresses of four or sixteen bytes and sizes below 256 times 65535, because other sizes do not come back (`ThreeBytesComeBackIff`).
- RadiusTheorems.DecodeUndoesEncode: leaves out tagged integers in the clear (`TaggedIntegerLosesItsLowWord` says what becomes of them) and attributes of no vendor with code 26, which announces a vendor.
- RadiusPackets.DecodeUndoesEncodePacket: assumes that requests other than access requests hide nothing, because they are hidden under the zero authenticator and shown under the received one; `OtherSeedShowsIff` says when that works. Attributes long enough to be split are in the clear and without an inner length.
- PeersTable.NoEntryHoldsADownPeer: assumes that no peer reports up after down; `NoUpAfterDownIff` says when the peers keep to that, and `FinalPeersEndWell` joins the two.
- RouterClosing.ClosedOnceIffNoneLeft: assumes peers that report down once; `DownTwice` is one that does not, and `DownIsLastIff` says when they do.
- CdrTheorems.FileComesBackIff: assumes that fields have names.
- Channels are unbounded queues. Adding to a wait group and sending the message it is for are one step. Nothing is sent after an object was closed.
- Timers fire at any time after they were armed; times are integers that do not go back where a statement says so. Store times are after 1970.
- A Diameter time is the integer modulo 2^32 that is written; fractions of a second and dates out of range are not modelled.
- Floats are their bytes, prefixes the parsed value; date texts and address texts are opaque.
- Texts are sequences of characters, one byte each where they go on the wire.
- A failed read or write reports no partial count. An allocation of any size succeeds.
- A response handed to the socket has at least two bytes; the checks of its authenticator and its attributes are a verdict that may be any.
- Dictionaries are functions; attribute and command names are not modelled, and Diameter command codes are below 2^24.
- The scanner's limit of 64 KB for a token is not modelled.
- An attribute unknown to the dictionary has code 0 for the source's merging; no concatenated attribute is taken to have that code.

Where code and documentation or intent disagree the model follows the code: the size fields of Diameter are to base 65535 and not 24 bits; the end-to-end identifier of a Diameter message comes before the hop-by-hop identifier and not after it (`core/diameter_message.go:256-261`); the mandatory bit of an attribute is not enforced when reading; disengaging an unconfigured peer changes a copy of the entry, so the entry stays engaged until the peer is down (`router/diameter_router.go:536`); an unconfigured peer that goes down removes the entry of the empty host, not its own (`router/diameter_router.go:334-335`).

Parts of the repository without a model here: the loop of the RADIUS client over several sockets, request routing and the RADIUS router, quarantine, HTTP and JSON interfaces, the Elastic and BigQuery writers beyond the backup file, dictionary and configuration loading, user files, packet checks and filters, logging and metrics, TLS and sockets themselves.
