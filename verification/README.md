# Boost.Actor: a verified model

Boost.Actor is an actor runtime with a network layer. This project models its protocols, locks,
matchers and codecs in Dafny, one module per component, and proves what the components promise:
invariants over every interleaving, correctness of algorithms against independent specifications,
and round trips.

| module | component |
|---|---|
| `DiningPhilosophers` | chopsticks, philosophers and messages in flight on a ring of any size |
| `TryMatch` | the backtracking pattern matcher with its one-level commit/rollback cursor |
| `SharedSpinlock` | the reader/writer spinlock, interleaved at every atomic operation |
| `GroupModule` | get-or-create of local groups on top of that spinlock |
| `GroupProgress` | that calls of `get` can still return |
| `Bits` | exclusive and inclusive or of numbers |
| `NodeIds` | node identifiers: byte form, order and hash |
| `BaspFrames` | headers, validity, writer and reader of the Binary Actor System Protocol (BASP) |
| `BaspRouting` | routing table and broker state under frames, lost connections and lookups |
| `BaspStreams` | byte streams into that broker, up to the frame that closes the connection |
| `Attachables` | the attachable list of an actor, its locked sections and its cleanup |
| `Links` | link and unlink of actors that hold one lock while they take another |
| `LinkProgress` | when those operations can end: chains and cycles of waiting actors |
| `MailboxElements` | message ids, the way of a request to the actor that answers it, kinds of messages |
| `PriorityMailbox` | the mailbox with two cache segments and two priorities |
| `SyncRequests` | pending responses, their handlers and the loop that offers messages to them |
| `SyncActors` | that loop in place, over either kind of mailbox |
| `Ripemd160` | streaming and padding of RIPEMD-160 |
| `MessageViews` | decorated and concatenated messages against plain sequences; `extract` |
| `StringQuoting` | the quoted form of strings and its reader |

Concurrent code is a step relation whose steps are the atomic operations or locked sections of the
source; a theorem about a run holds for every sequence of enabled steps. Objects that the source
updates in place are classes whose methods are proved against functions on values, and the theorems
are about those functions. The handlers of actors, the compression function of RIPEMD-160 and the
order in which a hash set is visited are universally quantified.

Some promises do not hold of the code for all inputs. Each has its exact condition:

- A quoted string is read back exactly when it does not end in a backslash (`StringQuoting.RoundTrip`).
- The handler of a synchronous request is run by the answer exactly when it was given in time (and, for
  a timeout, has one), the request was sent with normal priority, the last priority set while it was
  forwarded or delegated was normal, and no other response promise was made for it on the way
  (`SyncRequests.OwnHandlerRunsIff`). The answer keeps the priority and answered bits of the request as
  it arrived, the pending entry never has them (`MailboxElements.AnswerFitsIff`), and a handler for a
  request of high priority is looked up with the priority bit and not found. One delegation with high
  priority loses the answer, whatever the actor does otherwise
  (`SyncRequests.DelegatedWithHighPriority`). A request whose answers do not fit stays pending for ever
  (`SyncRequests.Unanswered`), and while it is awaited only exit messages that end the actor get through
  (`SyncRequests.AwaitingBlocks`).
- An operation that links or unlinks actors can end exactly when the chain of actors that wait for each
  other's lock, from its own actor on, leads to no cycle (`LinkProgress.OperationEndsIff`). Rings of two
  or more links can block (`LinkProgress.LinkingInARingCanBlock`), and then stay so
  (`LinkProgress.BlockedForever`). When every link, and every unlink from an actor that is still running,
  goes from an actor of lower to one of higher rank, for example by actor id, all operations can always
  end (`LinkProgress.RankedLinksNeverBlock`). The unlinks that the runtime does on exit messages meet
  this condition for every rank (`LinkProgress.ExitHandlingIsOrdered`).
- Node identifiers that compare as equal are equal exactly when the host hash has no zero byte before
  its last one, because the comparison is that of C strings (`NodeIds.SameIsIdentityIff`); they have
  equal hashes, as the unordered containers of the routing table need, exactly when there is none among
  the first seven (`NodeIds.SameHashesIff`). A node identifier survives its byte form exactly when it is
  not all zero (`NodeIds.NodeRoundTrip`).
- The digest is the specified one, for all compression functions, exactly for data of less than 2^32
  bytes, since the length is kept in 32 bits (`Ripemd160.SpecifiedDigestIff`).
- A node that sends a handle to a third node offers a route to it exactly when the connection's context
  names a direct connection that is not blacklisted (`BaspRouting.OffersRouteIff`). On connections that
  this side accepted the context never does, since only a server handshake fills it in
  (`BaspRouting.AcceptedOffersNoRoute`): after a client handshake the node is connected directly, and
  the nodes it mentions have no route (`BaspRouting.HandleWithoutRoute`).

The protocol documentation (libboost_actor_io/boost/actor/io/basp.hpp, lines 134 and 138) gives a node
identifier 18 bytes in a header; the code writes 24, which makes a header 72 bytes long. The model
follows the code.

## Model

| member | source | states |
|---|---|---|
| `DiningPhilosophers.InitialInv` | examples/message_passing/dining_philosophers.cpp:168-179 | a freshly spawned ring satisfies the invariant over states and messages |
| `DiningPhilosophers.PhilosopherMail` | examples/message_passing/dining_philosophers.cpp:110-164 | handling a message keeps the mail a philosopher has in flight in step with its behaviour |
| `DiningPhilosophers.PhilosopherToken` | examples/message_passing/dining_philosophers.cpp:110-164 | handling a message keeps one token per taken chopstick: a `taken` in flight, the philosopher holding it, or a `put` in flight |
| `DiningPhilosophers.StickMail` | examples/message_passing/dining_philosophers.cpp:48-72 | a chopstick answers each `take` once |
| `DiningPhilosophers.StickToken` | examples/message_passing/dining_philosophers.cpp:48-72 | a chopstick is taken by p exactly when p's token for it exists, after any `take` or `put` |
| `DiningPhilosophers.OwnPair` | examples/message_passing/dining_philosophers.cpp:48-164 | every delivery keeps the invariant of the philosopher it belongs to |
| `DiningPhilosophers.OtherPair` | examples/message_passing/dining_philosophers.cpp:48-164 | every delivery keeps the invariant of all other philosophers, who share chopsticks with it |
| `DiningPhilosophers.StepInv` | examples/message_passing/dining_philosophers.cpp:48-179 | every delivery, in any order, keeps the invariant |
| `DiningPhilosophers.RunInv` | examples/message_passing/dining_philosophers.cpp:48-179 | the invariant holds in every state of every run on every ring of two or more |
| `DiningPhilosophers.EatingOwnsBothSticks` | examples/message_passing/dining_philosophers.cpp:127-142 | an eating philosopher is the recorded user of both its chopsticks |
| `DiningPhilosophers.NeighboursNeverEatTogether` | examples/message_passing/dining_philosophers.cpp:103-165 | two philosophers that share a chopstick never eat at the same time |
| `DiningPhilosophers.PutComesFromUser` | examples/message_passing/dining_philosophers.cpp:54-71 | a `put` in flight comes from the current user, so the "unexpected put" branch is dead |
| `DiningPhilosophers.EveryMessageIsHandled` | examples/message_passing/dining_philosophers.cpp:109-164 | the behaviour a message meets always has a handler for it |
| `DiningPhilosophers.EveryPhilosopherCanMove` | examples/message_passing/dining_philosophers.cpp:109-179 | every philosopher always has a message in flight that moves it on |
| `DiningPhilosophers.DeliveryIsLighter` | examples/message_passing/dining_philosophers.cpp:109-164 | every delivery other than `eat` lowers a weight of the messages in flight |
| `DiningPhilosophers.Drain` | examples/message_passing/dining_philosophers.cpp:48-164 | from every reachable state some run ends with only `eat` messages left |
| `DiningPhilosophers.CanAlwaysEat` | examples/message_passing/dining_philosophers.cpp:48-164 | from every reachable state every philosopher can still come to eat |
| `DiningPhilosophers.ChopstickActor.OnMessage` | examples/message_passing/dining_philosophers.cpp:48-72 | the `become` of a chopstick and what it sends are the reaction of the step relation |
| `DiningPhilosophers.PhilosopherActor.OnMessage` | examples/message_passing/dining_philosophers.cpp:109-179 | the `become` of a philosopher and what it sends are the reaction of the step relation |
| `TryMatch.SplitCaptures` | libboost_actor_core/src/try_match.cpp:94-133 | a split of the message gives strictly increasing positions, each accepted by its non-wildcard pattern element in order |
| `TryMatch.LeastIsUnique` | libboost_actor_core/src/try_match.cpp:94-133 | there is only one lexicographically least split, so the captured positions are determined |
| `TryMatch.MatchesPlain` | libboost_actor_core/src/try_match.cpp:120-128 | a pattern that starts with a plain element matches iff the element is accepted and the rest matches |
| `TryMatch.MatchesWild` | libboost_actor_core/src/try_match.cpp:101-119 | a pattern that starts with a wildcard matches iff the rest matches from some later position |
| `TryMatch.LeastWild` | libboost_actor_core/src/try_match.cpp:110-118 | the first start from which the rest matches, with the least split of the rest, gives the least split |
| `TryMatch.HopelessSpreads` | libboost_actor_core/src/try_match.cpp:110-118 | once an inner wildcard has failed, no later start of an outer one can succeed, so the overwritten fallback position is never needed |
| `TryMatch.TryWildcard` | libboost_actor_core/src/try_match.cpp:101-119 | the loop over starts finds the lexicographically least split and stores its positions, or no start from here on matches |
| `TryMatch.AllWildcards` | libboost_actor_core/src/try_match.cpp:130-132 | the rest of the pattern consists of wildcards only |
| `TryMatch.TryMatchFrom` | libboost_actor_core/src/try_match.cpp:94-133 | the recursive matcher terminates, is right in both directions, stores the positions of the lexicographically least split above the cursor and changes nothing below it |
| `TryMatch.Match` | libboost_actor_core/src/try_match.cpp:135-140 | true iff the message splits into runs for wildcards and accepted elements for the rest; then the storage holds exactly the positions captured by the lexicographically least split |
| `SharedSpinlock.StepInv` | libboost_actor_core/src/shared_spinlock.cpp:48-107 | every atomic load, compare-and-swap, store and fetch_sub keeps the flag equal to the reader count or the writer mark |
| `SharedSpinlock.RunInv` | libboost_actor_core/src/shared_spinlock.cpp:48-107 | the same in every interleaving of any number of threads |
| `SharedSpinlock.FlagCountsHolders` | libboost_actor_core/src/shared_spinlock.cpp:48-107 | the flag is the number of readers, or the writer mark with one writer and no reader; it never leaves the range of `long` |
| `SharedSpinlock.WriterExcludesAll` | libboost_actor_core/src/shared_spinlock.cpp:48-107 | a writer excludes all readers and all other writers |
| `SharedSpinlock.HoldersLeave` | libboost_actor_core/src/shared_spinlock.cpp:78-102 | from every reachable state the holders can release until the flag is zero |
| `SharedSpinlock.CanAlwaysLock` | libboost_actor_core/src/shared_spinlock.cpp:48-58 | a thread inside `lock` can always still get the lock |
| `SharedSpinlock.CanAlwaysLockShared` | libboost_actor_core/src/shared_spinlock.cpp:87-98 | a thread inside `lock_shared` can always still get the lock |
| `GroupModule.LockStepInv` | libboost_actor_core/src/group_manager.cpp:337-354 | every step keeps each thread's place in `get` consistent with the lock and the map |
| `GroupModule.AnswerStepInv` | libboost_actor_core/src/group_manager.cpp:337-354 | every step keeps all answers of the present epoch equal to the map |
| `GroupModule.DisjointStepInv` | libboost_actor_core/src/group_manager.cpp:337-354 | no instance is both owned, published and stopped |
| `GroupModule.CoveredStepInv` | libboost_actor_core/src/group_manager.cpp:337-354 | every created instance is owned by a thread, published, or stopped |
| `GroupModule.RunInv` | libboost_actor_core/src/group_manager.cpp:337-354 | all of these in every interleaving with the steps of the spinlock |
| `GroupModule.SameGroup` | libboost_actor_core/src/group_manager.cpp:337-354 | between two calls of `stop`, all answers for one identifier are the same group |
| `GroupModule.AnsweredGroupIsLive` | libboost_actor_core/src/group_manager.cpp:337-354 | an answer of the present epoch is the published, unstopped instance |
| `GroupModule.LosersAreStopped` | libboost_actor_core/src/group_manager.cpp:349-352 | when no call is under way, an instance is stopped iff it is not published |
| `GroupModule.MapIsNotShared` | libboost_actor_core/boost/actor/locks.hpp:71-99 | while one thread may write the map, no other thread may touch it, although the upgrade drops the shared lock first |
| `GroupProgress.AllLeave` | libboost_actor_core/src/group_manager.cpp:337-354 | all threads that hold the lock can leave it while a waiting one stays where it is |
| `GroupProgress.GetCanReturn` | libboost_actor_core/src/group_manager.cpp:337-354 | from every reachable state every started call of `get` can still return |
| `NodeIds.BytesRoundTrip` | libboost_actor_core/src/node_id.cpp:163-171 | little-endian bytes of a number read back as the number |
| `NodeIds.NumberRoundTrip` | libboost_actor_core/src/node_id.cpp:163-171 | the number read from bytes is written as the same bytes |
| `NodeIds.NodeRoundTrip` | libboost_actor_core/src/node_id.cpp:163-178 | an identifier is read back iff it is not all zero |
| `NodeIds.NodeBytesRoundTrip` | libboost_actor_core/src/node_id.cpp:163-178 | any 24 bytes are reproduced by reading and writing |
| `NodeIds.CompareIsAnOrder` | libboost_actor_core/src/node_id.cpp:84-97 | the comparison is reflexive, antisymmetric in sign and transitive |
| `NodeIds.SameIsIdentityIff` | libboost_actor_core/src/node_id.cpp:84-97 | equal in comparison implies identical iff the host hash has no zero byte before its last one |
| `NodeIds.SameHashesIff` | libboost_actor_core/boost/actor/node_id.hpp:156-167 | identifiers that compare as equal have equal hashes iff the host hash has no zero byte among its first seven |
| `BaspFrames.HeaderParts` | libboost_actor_io/src/basp.cpp:87-95 | where each field of a header lies among its 72 bytes |
| `BaspFrames.HeaderRoundTrip` | libboost_actor_io/src/basp.cpp:75-95 | a header is read back iff its two node identifiers are not all zero |
| `BaspFrames.HeaderBytesRoundTrip` | libboost_actor_io/src/basp.cpp:75-95 | re-encoding a decoded header gives the same bytes |
| `BaspFrames.Write` | libboost_actor_io/src/basp.cpp:595-641 | writing reserves the header, appends the payload and fills the header in: earlier bytes stay, one frame is appended, the length is that of the payload |
| `BaspFrames.ReadOne` | libboost_actor_io/src/basp.cpp:341-364 | the reader recovers one frame and continues with what follows |
| `BaspFrames.StreamGrows` | libboost_actor_io/src/basp.cpp:595-641 | one more write extends the stream by that frame |
| `BaspFrames.StreamRoundTrip` | libboost_actor_io/src/basp_broker.cpp:447-463 | any sequence of valid frames with payloads under 2^32 bytes, none of which the instance refuses, is recovered exactly, with any bytes behind it |
| `BaspFrames.StreamUntilRefused` | libboost_actor_io/src/basp.cpp:416-428 | otherwise exactly the frames up to the first refused one are recovered, and the connection is closed |
| `BaspFrames.ReadInPieces` | libboost_actor_io/src/basp_broker.cpp:447-463 | reading does not depend on how the stream is cut into pieces |
| `BaspRouting.LookupFindsLiveHops` | libboost_actor_io/src/basp.cpp:194-212 | a lookup finds a route iff there is a direct one or a live hop, returns only direct connections and never prunes a live hop |
| `BaspRouting.LearnedKeepsInv` | libboost_actor_io/src/basp.cpp:278-288 | learning routes keeps the table sound |
| `BaspRouting.ClosedForgetsNode` | libboost_actor_io/src/basp_broker.cpp:492-509 | losing a bound connection makes its node unreachable, purges this node and no other, and keeps all other direct entries and contexts |
| `BaspRouting.HandledKeepsInv` | libboost_actor_io/src/basp.cpp:341-491 | every frame, valid or not, keeps the broker sound |
| `BaspRouting.StepInv` | libboost_actor_io/src/basp_broker.cpp:447-509 | every event keeps the broker sound |
| `BaspRouting.RunInv` | libboost_actor_io/src/basp.cpp:237-288 | in every run the direct maps are mutual inverses, direct and indirect destinations are disjoint, no blacklisted hop is stored, and every bound connection has a context |
| `BaspRouting.LosingAConnection` | libboost_actor_io/src/basp.cpp:294-314 | in every run, losing the connection bound to n leaves no route to n, drops its proxies, context and known actors, and keeps all that is stored for other nodes |
| `BaspRouting.LookupTwice` | libboost_actor_io/src/basp.cpp:194-212 | two lookups of one target in a row are one lookup |
| `BaspRouting.RoutingTable.EraseIndirect` | libboost_actor_io/src/basp.cpp:258-267 | the destination loses its hops; the result says whether it had any entry |
| `BaspRouting.RoutingTable.AddIndirect` | libboost_actor_io/src/basp.cpp:278-288 | a hop is added unless blacklisted; the result says whether it is the first |
| `BaspRouting.RoutingTable.AddBlacklisted` | libboost_actor_io/src/basp.cpp:237-245 | the hop is blacklisted and forgotten, and an entry without hops is erased |
| `BaspRouting.RoutingTable.Lookup` | libboost_actor_io/src/basp.cpp:194-212 | the pruning loop terminates and only drops dead hops |
| `BaspRouting.BaspBroker.PurgeState` | libboost_actor_io/src/basp_broker.cpp:155-163 | proxies, context and known actors of a directly connected node are dropped |
| `BaspRouting.BaspBroker.HandleNodeShutdown` | libboost_actor_io/src/basp.cpp:500-509 | the node and its hops are purged and the node erased from the table |
| `BaspRouting.BaspBroker.CloseOnError` | libboost_actor_io/src/basp.cpp:344-351 | an error forgets the connection and its node |
| `BaspRouting.BaspBroker.OnConnectionClosed` | libboost_actor_io/src/basp_broker.cpp:492-509 | the handler of a lost connection is the value-level transition |
| `BaspRouting.BaspBroker.MakeProxy` | libboost_actor_io/src/basp_broker.cpp:69-94 | a proxy can be made iff a route exists after the sender's was learned |
| `BaspRouting.OffersRouteIff` | libboost_actor_io/src/basp_broker.cpp:75-81 | a mentioned node that is not connected directly gets a live route through the sender iff the sender's context names a direct connection that is not blacklisted for it |
| `BaspRouting.OnlyServersAreNamed` | libboost_actor_io/src/basp_broker.cpp:116-123 | in every run a context names a node only after a server handshake over its connection |
| `BaspRouting.AcceptedOffersNoRoute` | libboost_actor_io/src/basp.cpp:445-457 | in every run a handle received over an accepted connection offers no route |
| `BaspRouting.HandleWithoutRoute` | libboost_actor_io/src/basp.cpp:445-457 | a failing run: a node that handshakes as client is connected directly, and a third node it mentions has no route |
| `BaspRouting.BaspBroker.GetOrPut` | libboost_actor_core/src/actor_namespace.cpp:160-177 | an entry is stored whether or not a proxy could be made; only routes are learned besides |
| `BaspRouting.BaspBroker.FinalizeHandshake` | libboost_actor_io/src/basp_broker.cpp:116-153 | the context gets the node's identifier; otherwise only proxies and known actors grow |
| `BaspRouting.BaspBroker.Dispatch` | libboost_actor_io/src/basp.cpp:458-478 | a message over a bound connection leaves a live route to its source unless that hop is blacklisted |
| `BaspRouting.BaspBroker.Forward` | libboost_actor_io/src/basp.cpp:371-401 | forwarding only prunes dead hops |
| `BaspRouting.BaspBroker.OnFrame` | libboost_actor_io/src/basp.cpp:341-491 | the handler of a complete frame follows the transition relation, for all operations and error paths |
| `BaspStreams.ClosesIff` | libboost_actor_io/src/basp.cpp:416-428 | a valid frame with its payload closes the connection iff it is a server handshake from this node or from a directly connected one |
| `BaspStreams.StreamIntoBroker` | libboost_actor_io/src/basp_broker.cpp:447-463 | a stream of valid frames fed to the broker is recovered whole when the broker closes on none of them |
| `BaspStreams.StreamStopsAtRefusal` | libboost_actor_io/src/basp_broker.cpp:447-463 | otherwise reading stops exactly at the first server handshake from this node or from a node connected directly at that moment |
| `Attachables.DetachedCounts` | libboost_actor_core/src/abstract_actor.cpp:97-116 | what detach removes is what it counts, and it matched |
| `Attachables.DetachedFirst` | libboost_actor_core/src/abstract_actor.cpp:97-116 | with stop_on_hit the first match is gone and the rest stays in order |
| `Attachables.DetachedAll` | libboost_actor_core/src/abstract_actor.cpp:97-116 | without stop_on_hit no match remains |
| `Attachables.AbstractActor.Attach` | libboost_actor_core/src/abstract_actor.cpp:79-95 | a running actor lists the attachable in front, an exited one fires it at once |
| `Attachables.AbstractActor.DetachImpl` | libboost_actor_core/src/abstract_actor.cpp:97-116 | the recursion over the list removes or only counts the hits |
| `Attachables.AbstractActor.Detach` | libboost_actor_core/src/abstract_actor.cpp:118-122 | all matches are removed and counted |
| `Attachables.AbstractActor.Cleanup` | libboost_actor_core/src/abstract_actor.cpp:226-246 | the first cleanup fires the whole list in order with its reason, later ones do nothing |
| `Attachables.AbstractActor.EstablishLink` | libboost_actor_core/src/abstract_actor.cpp:151-169 | a link adds an attachable on both sides or on none; an exited actor on either side refuses with an exit message |
| `Attachables.AbstractActor.EstablishBacklink` | libboost_actor_core/src/abstract_actor.cpp:171-193 | accepted once by a running actor, refused with a message by an exited one |
| `Attachables.AbstractActor.RemoveLink` | libboost_actor_core/src/abstract_actor.cpp:195-210 | both sides lose one attachable, if this side had it |
| `Attachables.AbstractActor.RemoveBacklink` | libboost_actor_core/src/abstract_actor.cpp:212-220 | one matching attachable is removed |
| `Attachables.StepCalls` | libboost_actor_core/src/abstract_actor.cpp:79-122 | all calls carry the exit reason, none is made before the exit, nothing is listed after it |
| `Attachables.StepAccounted` | libboost_actor_core/src/abstract_actor.cpp:79-122 | every locked section and every call conserves each attachable |
| `Attachables.RunInv` | libboost_actor_core/src/abstract_actor.cpp:226-246 | both in every interleaving of attach, detach and repeated cleanup |
| `Attachables.FirstReasonStays` | libboost_actor_core/src/abstract_actor.cpp:226-246 | the first exit reason is never replaced |
| `Attachables.OneFate` | libboost_actor_core/src/abstract_actor.cpp:226-246 | an attachable attached once is listed, detached, about to fire, or fired: exactly one of them, once, with the first reason |
| `Attachables.AllFired` | libboost_actor_core/src/abstract_actor.cpp:226-246 | when all calls are made, everything not detached was fired as often as attached |
| `Links.KeepsPair` | libboost_actor_core/src/abstract_actor.cpp:151-220 | steps other than the two backlink steps change no end of a link between running actors |
| `Links.BacklinkPair` | libboost_actor_core/src/abstract_actor.cpp:171-193 | a backlink step keeps the two ends of every link equal |
| `Links.UnbacklinkPair` | libboost_actor_core/src/abstract_actor.cpp:212-220 | a remove-backlink step keeps the two ends of every link equal |
| `Links.StepHonest` | libboost_actor_core/src/default_attachable.cpp:41-47 | only exited actors send exit messages, with their reason |
| `Links.RunInv` | libboost_actor_core/src/abstract_actor.cpp:151-246 | in every run of link, unlink, exit and other attachments, two running actors hold matching ends of at most one link |
| `Links.MatchingLinks` | libboost_actor_core/src/abstract_actor.cpp:151-220 | without an operation half done between them, two running actors hold equally many, at most one, link attachables for each other |
| `Links.ExitNotifies` | libboost_actor_core/src/default_attachable.cpp:41-55 | an exiting actor sends each linked running partner exactly one exit message, with its reason, and none to others: none before the exit, and at every moment after it that one is about to be sent or sent |
| `Links.LinkObjects` | libboost_actor_core/src/abstract_actor.cpp:151-193 | linking two actor objects is a run of the link steps |
| `Links.UnlinkObjects` | libboost_actor_core/src/abstract_actor.cpp:195-220 | unlinking two actor objects is a run of the unlink steps |
| `LinkProgress.EndsOperation` | libboost_actor_core/src/abstract_actor.cpp:151-220 | an operation whose chain of waiting actors reaches one that does not wait can end, and no other operation begins |
| `LinkProgress.StaysBlocked` | libboost_actor_core/src/abstract_actor.cpp:151-220 | no step changes the operation of an actor in a set that wait for each other |
| `LinkProgress.BlockedForever` | libboost_actor_core/src/abstract_actor.cpp:151-220 | actors that wait for each other, in a cycle of any length or behind one, do so for ever and never exit |
| `LinkProgress.EndlessIffCycle` | libboost_actor_core/src/abstract_actor.cpp:151-220 | a chain of waiting actors has no end iff it leads to a cycle |
| `LinkProgress.OperationEndsIff` | libboost_actor_core/src/abstract_actor.cpp:151-220 | in every reachable state some continuation ends an actor's operation iff its chain reaches an actor that does not wait, iff it leads to no cycle |
| `LinkProgress.LinkingInARingCanBlock` | libboost_actor_core/src/abstract_actor.cpp:151-169 | links around a ring of two or more running actors can block all of them |
| `LinkProgress.RankedLinksNeverBlock` | libboost_actor_core/src/abstract_actor.cpp:151-220 | when all links of a run, and all unlinks from actors that are still running, go from lower to higher rank, all operations can end from each of its states |
| `LinkProgress.ExitHandlingIsOrdered` | libboost_actor_core/src/local_actor.cpp:304-308 | in every run the unlink that follows an exit message keeps this condition, whichever way the ranks go |
| `PriorityMailbox.DrainedInOrder` | libboost_actor_core/src/local_actor.cpp:821-834 | reading the mailbox keeps the order within both classes |
| `PriorityMailbox.PushedInOrder` | libboost_actor_core/src/local_actor.cpp:851-865 | a skipped message comes after all cached ones of its class |
| `PriorityMailbox.PushedKeeps` | libboost_actor_core/src/local_actor.cpp:851-865 | the second segment stays partitioned and gains just that message |
| `PriorityMailbox.Mailbox.Insert` | libboost_actor_core/src/local_actor.cpp:827-832 | the insert point for high priority moves as the iterator does |
| `PriorityMailbox.Mailbox.ReadQueue` | libboost_actor_core/src/local_actor.cpp:821-834 | the loop moves the whole queue into the first segment, high messages in front |
| `PriorityMailbox.Mailbox.NextMessage` | libboost_actor_core/src/local_actor.cpp:811-840 | what is returned and what stays, with and without priorities |
| `PriorityMailbox.Mailbox.PushToCache` | libboost_actor_core/src/local_actor.cpp:851-865 | the new second segment, with and without priorities |
| `PriorityMailbox.StepFifo` | libboost_actor_core/src/local_actor.cpp:811-865 | every step keeps each class first-in first-out |
| `PriorityMailbox.RunInv` | libboost_actor_core/src/local_actor.cpp:811-865 | in every run both segments are partitioned, each class is FIFO, and no message is lost or doubled |
| `PriorityMailbox.HighFirst` | libboost_actor_core/src/local_actor.cpp:811-840 | in every run a normal message is returned only when no high one waits in the mailbox or first segment |
| `MailboxElements.Travelled` | libboost_actor_core/src/local_actor.cpp:115-130 | the id of a request after any sequence of forwards, delegations and promises |
| `MailboxElements.AnswerFitsIff` | libboost_actor_core/boost/actor/message_id.hpp:90-108 | an answer has the id of the pending entry iff the last priority set on the way was normal and no promise was made before |
| `MailboxElements.AnyAnswerId` | libboost_actor_core/boost/actor/local_actor.hpp:486-502 | every combination of the priority and answered bits comes up in an answer |
| `SyncRequests.InstallFor` | libboost_actor_core/src/local_actor.cpp:529-548 | giving a handler sets it in the request's entry iff the request has normal priority, and in no other entry |
| `SyncRequests.DoCore` | libboost_actor_core/src/local_actor.cpp:506-548 | sending a request and giving a handler keep all accounts |
| `SyncRequests.CompleteCore` | libboost_actor_core/src/local_actor.cpp:437-463 | completing a request by the first message of its id keeps all accounts, whatever its handler does about requests; a timeout runs only a handler that has a timeout |
| `SyncRequests.OfferCore` | libboost_actor_core/src/local_actor.cpp:403-490 | a message that is handled or dropped leaves a sound state |
| `SyncRequests.ScanCore` | libboost_actor_core/boost/actor/detail/intrusive_partitioned_list.hpp:211-251 | a pass over the cache keeps the state sound, and one without success has left no awaited response behind |
| `SyncRequests.SettleCore` | libboost_actor_core/src/local_actor.cpp:745-750 | after the passes over the cache no awaited response is left in it, unless the actor ended |
| `SyncRequests.RoundInv` | libboost_actor_core/src/local_actor.cpp:727-759 | every round of the loop keeps the invariant, for every mailbox that keeps the order of equal ids |
| `SyncRequests.RunInv` | libboost_actor_core/src/local_actor.cpp:727-759 | the invariant holds in every run, for all handlers that return normally |
| `SyncRequests.OnceByOwnResponse` | libboost_actor_core/src/local_actor.cpp:506-527 | a request is pending, or was completed once, by the response or timeout with its id that arrived first; its own handler was then run iff it was given in time, the request has normal priority and, for a timeout, the handler given last has one |
| `SyncRequests.DuplicatesAreDropped` | libboost_actor_core/src/local_actor.cpp:197-202 | later responses and timeouts of a completed request are dropped |
| `SyncRequests.AwaitedHasNotArrived` | libboost_actor_core/src/local_actor.cpp:745-767 | when a running actor has emptied its mailbox, no message with the awaited id has ever arrived |
| `SyncRequests.OwnHandlerRunsIff` | libboost_actor_core/src/local_actor.cpp:437-463 | in every run, with the mailbox emptied and no younger request pending, a request's own handler was run by its only answer iff it was given in time (for a timeout: with one), the request and the last hop had normal priority, and no promise was made before |
| `SyncRequests.DelegatedWithHighPriority` | libboost_actor_core/boost/actor/local_actor.hpp:486-497 | a failing run, for all handlers: the answer to a request delegated with high priority is dropped and the request stays pending with its handler |
| `SyncRequests.Unanswered` | libboost_actor_core/src/local_actor.cpp:522-527 | a request for which no answer with the right id arrives stays pending and is never completed |
| `SyncActors.MailboxTakesInOrder` | libboost_actor_core/src/local_actor.cpp:811-840 | next_message keeps the order of messages with the same id, with and without priorities |
| `SyncActors.MailboxPutsInOrder` | libboost_actor_core/src/local_actor.cpp:851-865 | push_to_cache keeps it too |
| `SyncActors.SyncActor.SyncSend` | libboost_actor_core/boost/actor/local_actor.hpp:463-471 | a fresh id, a pending entry in front without the priority bit, and a handle with it |
| `SyncActors.SyncActor.SetResponseHandler` | libboost_actor_core/src/local_actor.cpp:529-548 | the first entry with the id of the handle gets the handler, if there is one |
| `SyncActors.SyncActor.MarkArrived` | libboost_actor_core/src/local_actor.cpp:512-516 | all entries with the id are removed |
| `SyncActors.SyncActor.InvokeMessage` | libboost_actor_core/src/local_actor.cpp:403-490 | dropped, skipped or handled, and the new state, for responses, timeouts with and without a handler for them, exit, system and ordinary messages |
| `SyncActors.SyncActor.InvokeFromCache` | libboost_actor_core/src/local_actor.cpp:867-877 | one pass over the cache with elements taken out and put back |
| `SyncActors.SyncActor.OneRound` | libboost_actor_core/src/local_actor.cpp:728-759 | nothing is waiting, or the round is a step of the relation, with either kind of mailbox |
| `SyncActors.SyncActor.Resume` | libboost_actor_core/src/local_actor.cpp:727-768 | the loop is a path of at most that many rounds, and stops early only when the mailbox is empty or the actor ended |
| `Bits.DisjointBits` | libboost_actor_core/src/ripemd_160.cpp:364-383 | exclusive and inclusive or of numbers without a common bit are their sum |
| `Ripemd160.FoldAppend` | libboost_actor_core/src/ripemd_160.cpp:400-409 | folding over blocks can be split at any block |
| `Ripemd160.FillOneMore` | libboost_actor_core/src/ripemd_160.cpp:367-371 | an exclusive or of a shifted byte writes the next byte of a block |
| `Ripemd160.FillLength` | libboost_actor_core/src/ripemd_160.cpp:379-382 | two words hold the 64-bit length in little-endian order |
| `Ripemd160.LengthWords` | libboost_actor_core/src/ripemd_160.cpp:379-382 | the two shifted words are the bit length modulo 2^64 |
| `Ripemd160.FoldPadding` | libboost_actor_core/src/ripemd_160.cpp:364-383 | the padded rest is one block or two, by whether 55 bytes suffice |
| `Ripemd160.BytesToDword` | libboost_actor_core/src/ripemd_160.cpp:75-80 | four bytes make a little-endian word |
| `Ripemd160.MDfinish` | libboost_actor_core/src/ripemd_160.cpp:364-383 | the fold over the rest and its padding, for both length words |
| `Ripemd160.Chunks` | libboost_actor_core/src/ripemd_160.cpp:400-406 | the chunk loop is the fold over all full blocks |
| `Ripemd160.StoreDigest` | libboost_actor_core/src/ripemd_160.cpp:410-416 | the five words are stored as 20 little-endian bytes |
| `Ripemd160.Ripemd160` | libboost_actor_core/src/ripemd_160.cpp:391-417 | for every compression function and all data under 2^32 bytes, the digest of the fold over the padded message; for longer data that of its first size modulo 2^32 bytes |
| `Ripemd160.SpecifiedDigestIff` | libboost_actor_core/src/ripemd_160.cpp:391-409 | what is computed is the specified digest for all compression functions iff the data is shorter than 2^32 bytes |
| `MessageViews.Select` | libboost_actor_core/src/concatenated_tuple.cpp:80-91 | the part and index of a position, or none beyond the size |
| `MessageViews.At` | libboost_actor_core/src/decorated_tuple.cpp:56-59 | reading through decorations and concatenations reads the flat sequence |
| `MessageViews.Decorate` | libboost_actor_core/src/decorated_tuple.cpp:31-41 | composing mappings keeps one level of decoration and selects the same elements |
| `MessageViews.PickToken` | libboost_actor_core/src/decorated_tuple.cpp:78-90 | the token loop folds the types of the selected elements |
| `MessageViews.Parts` | libboost_actor_core/src/concatenated_tuple.cpp:93-104 | null messages vanish and nested concatenations are taken apart |
| `MessageViews.Concatenate` | libboost_actor_core/src/concatenated_tuple.cpp:93-115 | the elements, size and token of the concatenation |
| `MessageViews.Drop` | libboost_actor_core/src/message.cpp:113-125 | the suffix that starts at element n, empty when n reaches the size |
| `MessageViews.DropRight` | libboost_actor_core/src/message.cpp:127-138 | the prefix that is n elements shorter, empty when n reaches the size |
| `MessageViews.Slice` | libboost_actor_core/src/message.cpp:140-148 | up to n elements from a position |
| `MessageViews.Concat` | libboost_actor_core/src/message.cpp:368-378 | the elements of all messages in order |
| `MessageViews.Eval` | libboost_actor_core/src/message.cpp:113-148 | any nesting of the operations reads as the same operations on the flat sequence |
| `MessageViews.OfferAt` | libboost_actor_core/src/message.cpp:157-172 | the inner loop finds the longest accepted slice at a position |
| `MessageViews.ExtractImpl` | libboost_actor_core/src/message.cpp:154-175 | loops and recursion terminate for every handler and follow the specification on sequences |
| `MessageViews.Extract` | libboost_actor_core/src/message.cpp:177-179 | extraction from the first position |
| `MessageViews.NothingElseIsLost` | libboost_actor_core/src/message.cpp:154-175 | putting the removed slices back, last one first, gives the input |
| `MessageViews.RemovedAreAccepted` | libboost_actor_core/src/message.cpp:154-175 | the removed slices are exactly the accepted ones, in order |
| `MessageViews.NothingAcceptableIsLeft` | libboost_actor_core/src/message.cpp:154-175 | a handler without memory accepts no slice of the result from the last removal on |
| `MessageViews.ExtractLaw` | libboost_actor_core/src/message.cpp:154-179 | all three for `extract`, for every handler and message |
| `StringQuoting.Write` | libboost_actor_core/src/string_serialization.cpp:106-117 | the written text is the quoted string |
| `StringQuoting.StringReader.ReadValue` | libboost_actor_core/src/string_serialization.cpp:356-411 | the value, the two errors and the new position |
| `StringQuoting.StringReader.FindClosing` | libboost_actor_core/src/string_serialization.cpp:361-368 | the first quotation mark not preceded by a backslash |
| `StringQuoting.Unescape` | libboost_actor_core/src/string_serialization.cpp:393-410 | the loop replaces every escape |
| `StringQuoting.UnescapedEscaped` | libboost_actor_core/src/string_serialization.cpp:106-117 | unescaping undoes escaping for every string |
| `StringQuoting.WhereItCloses` | libboost_actor_core/src/string_serialization.cpp:361-368 | in a quoted string, at any place of a text, only the last quotation mark can close it, and does iff the string does not end in a backslash |
| `StringQuoting.RoundTrip` | libboost_actor_core/src/string_serialization.cpp:356-411 | a quoted string at any place of a text is read back, up to just past its closing mark, iff it does not end in a backslash |
| `StringQuoting.LoneBackslash` | libboost_actor_core/src/string_serialization.cpp:361-374 | the string of one backslash is read as unterminated |

## Left out

- Sockets, the multiplexer, middleman start-up, logging and the examples other than the philosophers: input and output.
- Object lifetime and reference counts: ownership of C++ objects is not modelled.
- The rounds of the RIPEMD-160 compression function: a parameter, since only streaming and padding have a specification apart from the code.
- Byte order other than little-endian: the binary serializer writes integers in the order of the machine.
- Wrap-around of request numbers: they are unbounded. The flag of the spinlock is a 64-bit `long` and does not wrap, for up to 2^63 - 1 threads.
- The size of the storage that `try_match` writes to: failing attempts with several wildcards move the cursor further than the number of captures, so the model's storage has no bound.
- A connection that handshakes for two nodes: the assertions of `add_direct` are preconditions.
- Routing keys that differ only behind a zero byte of the host hash: the routing tables use identity of node identifiers, which agrees with the comparison under the condition of `NodeIds.SameIsIdentityIff`.
- Header validity of error frames from `write_dispatch_error`: they carry a payload and no source actor.
- Attachables.AbstractActor.DetachImpl: excludes the call that neither stops nor removes, because it does not return after a hit; no caller uses it.
- Spawn servers, published actors and automatic connections of the broker: they do not touch the routing state.
- Which behaviour timeout is active and whether exit messages are trapped: decided by the quantified handlers.
- The timeout identifier that `request_timeout` returns: it is one less than the active one.
- Groups of other nodes: the proxy branch of `local_group_module::deserialize` takes the same locks as `get`, but never stops a proxy that loses the race.
- Monitors as a separate relation: they are attachables of another kind, and fire like all others.
- Handlers that throw, and blocking actors that receive inside a handler.
- SyncActors.SyncActor.InvokeMessage: a system message is handled without effect on the requests; the migration of an actor that it can cause is not modelled, because it replaces the actor's state by code of the user.
- Fairness: that a philosopher can always eat, a thread can always lock and a call of `get` can always return says that a continuation exists, not that every run has one.
