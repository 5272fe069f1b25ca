# Routing, sharing and transport in a network simulator, modelled in Dafny

The project models parts of the ns-2.34 network simulator and proves what they are for.

* **AODV** (`Aodv`, `AodvEffects`, `AodvUpkeep`, `AodvSteps`, `AodvNetwork`, `AodvIds`, `AodvDiscovery`,
  `AodvLocalRepair`, `AodvTiming`, `AodvSearch`, `AodvAgent`): the on-demand distance vector routing agent. One node is
  a value, its event handlers are functions, and what each of them sends and changes is proved from the routes and the
  buffer before it; a network is any number of nodes whose messages may be lost, repeated, reordered and heard by
  anybody. Built without local repair its routes never form a loop, and from every reachable state a search can
  succeed; built with it, as `aodv.h` ships, routes can form a loop. The agent itself is a class whose handlers update
  its fields and are proved to do what the functions say, with the assertions of the C++ code.
* **AOMDV** (`Aomdv`, `AomdvEffects`, `AomdvUpkeep`, `AomdvSteps`, `AomdvNetwork`, `AomdvIds`, `AomdvDiscovery`,
  `AomdvRtable`, `AomdvAgent`): the same with several paths per destination and the rule of the advertised hop count.
  No choice of paths ever forms a loop, and one request can bring back two disjoint paths.
* **Send buffer** (`RouteQueue`, `RouteQueueList`): the drop-front queue of both agents, as a linked list.
* **Bandwidth allocator** (`Asim`): progressive filling. It reaches the one weighted max-min fair allocation
  exactly when short flows leave room for the others.
* **Token bucket filter** (`Tbf`): a timer-driven shaper whose output keeps to a rate envelope.
* **TCP reassembly** (`Reassembly`, `ReassemblyCuts`, `ReassemblyList`): the receive queue of the full TCP agent as a
  doubly linked list, and the byte set that it stands for (section 3.9 of RFC 793): for segments of one
  segmentation, and the exact condition for segments cut in any way.
* **Admission control signalling** (`Signalling`, `SignallingLink`): reservation along paths with confirmation
  and teardown.
* **Loss meter** (`LossMeter`, `LossMeterList`): the list of gaps that the IVS receiver scans.
* **Multicast classifier** (`McastClassifier`): hashed lookup against a plain list.

`Common` and `SinglyLinked` hold what several of them share, `OnDemand` what the two routing agents share.

## How to read it

Code that updates fields step by step is a class with methods; each method's contract gives the new state as a
function of the old one, and the main results are proved of these functions: invariants of every reachable state,
safety over whole runs, uniqueness, and the exact conditions under which something holds. Time is a parameter of
events. Doubles are exact reals; integers and sequence numbers have no width. A hop count is a number or the
sentinel above all numbers. Sent messages stay in the outbox of their sender for good, and any of them may be
delivered to anybody at any time and any number of times.

Where a property is false of the code, that is proved too, with the condition that makes it true:
`AodvLocalRepair.LoopFreeIffNoLocalRepair`, `Asim.Allocator.NewUpdate`, `Tbf.Conformance`, `Tbf.ShapesIffFit`,
`Signalling.RateRight`, `Signalling.CountRight`, `LossMeter.CountsAllLosses`, `LossMeter.CountRight`,
`ReassemblyCuts.AlwaysExactIffRight`, `ReassemblyCuts.FirstMissingIff`. The number of flows of a link starts at -1 in the C++ code
and is set to 0 only when a trace of the link is started, so a link without a trace counts one flow too few.

## Model

| member | source | states |
|---|---|---|
| `AodvNetwork.AodvLoopFree` | src/ns-2.34/aodv/aodv.cc:669-781 | In every state that any run can reach (messages lost, repeated, reordered, heard by anybody; nodes acting in any order) the next hops towards a destination never visit a node twice |
| `AodvNetwork.Walk` | src/ns-2.34/aodv/aodv.cc:669-674 | Following next hops from any node is a finite path that ends at the destination or at a node without a route; the measure is how far the sequence number is below the next one of the destination, then the hop count |
| `AodvNetwork.RunInv` | src/ns-2.34/aodv/aodv.cc:621-947 | Every reachable state: the route at the next hop has a newer number or the same one and fewer hops, and every message ever sent is still backed by the routes of its sender |
| `AodvNetwork.RoutesNeverStale` | src/ns-2.34/aodv/aodv.cc:379-405 | Over every run the pair of number and hop count of each route never gets staler |
| `AodvNetwork.LostRouteNeedsNewNumber` | src/ns-2.34/aodv/aodv.cc:335-338 | A node that lost a route with number s has, whenever it has a route again, a number of at least s + 2 |
| `AodvNetwork.DestinationControls` | src/ns-2.34/aodv/aodv.cc:720-722 | Routes in use carry even numbers that their destination has issued; all others are 0 or odd and at most one ahead of it |
| `AodvNetwork.AnswerAdvancesByTwo` | src/ns-2.34/aodv/aodv.cc:718-729 | A destination that answers any request that can reach it advances its own number by exactly two |
| `AodvDiscovery.DiscoverySucceeds` | src/ns-2.34/aodv/aodv.cc:1006-1121 | From every reachable state, along every path of at most 30 hops that the ring covers: a node with a packet for the end of the path that may ask has a run in which messages only go from neighbour to neighbour along the path, after which it has an up route through its neighbour with a number not below the one it knew, and has sent the packet there |
| `AodvIds.RunIds` | src/ns-2.34/aodv/aodv.cc:1112-1112 | In every reachable state every request id that is remembered or has been sent was issued by the source named with it, so the next id of a node is new to everybody |
| `AodvSteps.EventLegal` | src/ns-2.34/aodv/aodv.cc:529-619 | Any event at one node keeps the node in order and changes each route in one of three ways: not at all, to what the received message offers and is fresher, or down with a larger odd number; and it sends only what its routes back |
| `AodvEffects.ReplySends` | src/ns-2.34/aodv/aodv.cc:783-890 | A fresher reply sends exactly the packets that wait for its destination, in order, through its sender, and then is passed on if and only if it is not for this node, its time to live is not 1 and the route back is up: one reply to the next hop towards the source, with one hop more and one less to live, from this node; whatever waits for others goes on waiting |
| `AodvEffects.StaleReply` | src/ns-2.34/aodv/aodv.cc:818-858 | A reply that is not fresher changes no entry, sends nothing and is not passed on |
| `AodvEffects.ReplyRoutes` | src/ns-2.34/aodv/aodv.cc:818-829 | A fresher reply becomes the route to its destination, field by field, and no other route changes |
| `AodvEffects.ReplyEndsSearch` | src/ns-2.34/aodv/aodv.cc:824-882 | The search counters are reset, the source takes one latency sample into the next of three places, the next hop of the reply becomes a precursor, and the route is good for the lifetime offered, or for ten seconds when it has carried a packet |
| `AodvEffects.ReplyOthers` | src/ns-2.34/aodv/aodv.cc:866-882 | Passing a reply on prolongs the route that it takes, and no other entry changes |
| `AodvEffects.FlushEffect` | src/ns-2.34/aodv/aodv.cc:691-697 | Exactly the packets for the destination that are in time and may travel are sent, in order, along its route; the rest waits as before, and the route is prolonged when something was sent |
| `AodvEffects.HeardRequest` | src/ns-2.34/aodv/aodv.cc:629-648 | A request of the node itself, or one whose id it remembers, changes nothing |
| `AodvEffects.RequestRoutes` | src/ns-2.34/aodv/aodv.cc:654-690 | Any other request makes its sender the way back to its source exactly when it is fresher; no other route changes |
| `AodvEffects.RequestSends` | src/ns-2.34/aodv/aodv.cc:691-781 | It sends what waits for the source, and then exactly one message or none: the answer of the destination, the answer from the table, or the request passed on with the largest number known, unless its time to live ends |
| `AodvEffects.RequestKeeps` | src/ns-2.34/aodv/aodv.cc:640-729 | It is remembered, and only its destination takes a new number: the smallest even one above its own and the wanted one |
| `AodvEffects.RequestBackEntry` | src/ns-2.34/aodv/aodv.cc:654-690 | The entry for the source, field by field: timers, and the search ended by the way back |
| `AodvEffects.RequestUsers` | src/ns-2.34/aodv/aodv.cc:746-749 | A node that answers from its table notes each next hop as a user of the other route |
| `AodvEffects.CastDropsFraction` | src/ns-2.34/aodv/aodv.cc:743-743 | The lifetime in an answer from the table is the time left without its fraction, modulo 2 to the 32 |
| `AodvUpkeep.ErrorRoutes` | src/ns-2.34/aodv/aodv.cc:893-930 | An error report takes down exactly the routes through its sender that it names with a number not below theirs; the first such item counts, the old length is kept for the next search, and the precursors are gone |
| `AodvUpkeep.ErrorSends` | src/ns-2.34/aodv/aodv.cc:918-947 | The node reports on exactly the lost routes that had precursors, if there are any |
| `AodvUpkeep.LossRoutes` | src/ns-2.34/aodv/aodv.cc:327-352 | Losing a neighbour takes down exactly the routes through it, each with the number after its own, and removes it from the precursor lists |
| `AodvUpkeep.LossSends` | src/ns-2.34/aodv/aodv.cc:1281-1298 | The own number rises by two, the neighbour is forgotten, and exactly the listed routes lost with it are reported, if there are any |
| `AodvUpkeep.NeighborsPurged` | src/ns-2.34/aodv/aodv.cc:1304-1316 | The neighbour timer takes down exactly the routes through neighbours that were not heard of in time, tells of each listed one, and counts the own number up by two for each |
| `AodvUpkeep.HelloHeard` | src/ns-2.34/aodv/aodv.cc:1240-1264 | A hello from a new neighbour is good for four and a half seconds and raises the own number by two; one from a known neighbour only prolongs it |
| `AodvUpkeep.RequestedFields` | src/ns-2.34/aodv/aodv.cc:1054-1086 | Ring, counter and deadline of a request from the last length, the last ring, the counter and the three latency samples |
| `OnDemand.BackoffGrows` | src/ns-2.34/aodv/aodv.cc:1079-1081 | The wait for an answer grows with every further network-wide request by as much as the first one took |
| `AodvUpkeep.AttemptEffect` | src/ns-2.34/aodv/aodv.cc:1021-1121 | An attempt to ask does nothing with a route or before the deadline, drops exactly the packets for the destination after four network-wide requests, and otherwise sends exactly one request |
| `AodvUpkeep.ResolveUp` | src/ns-2.34/aodv/aodv.cc:436-442 | A packet with a route goes to its next hop unless it is for this node or may not travel |
| `AodvUpkeep.ResolveOwn` | src/ns-2.34/aodv/aodv.cc:447-450 | An own packet without a route joins the buffer and the node asks |
| `AodvUpkeep.ResolveForeign` | src/ns-2.34/aodv/aodv.cc:451-474 | A foreign packet without a route waits for a repair that is under way, and otherwise one report of this destination goes out |
| `AodvUpkeep.DataEffect` | src/ns-2.34/aodv/aodv.cc:529-584 | Which data packets end here, and with which time to live the others go on |
| `AodvUpkeep.PurgeRouteEffect` | src/ns-2.34/aodv/aodv.cc:477-520 | The timer at one route: an expired one goes down and its packets are dropped, along one in use the waiting packets are sent, for one that is down they cause an attempt to ask |
| `AodvUpkeep.RoutesPurged` | src/ns-2.34/aodv/aodv.cc:477-520 | The timer takes down exactly the listed routes that have expired, each with the number after its own |
| `AodvUpkeep.IdsPurged` | src/ns-2.34/aodv/aodv.cc:228-240 | The timer of the cache keeps exactly the requests whose time is not over |
| `AodvUpkeep.RepairStarts` | src/ns-2.34/aodv/aodv.cc:363-377 | With local repair, a packet that has come further than its destination is away is kept, its route counts as under repair, and the node asks |
| `AodvUpkeep.NoRepair` | src/ns-2.34/aodv/aodv.cc:277-325 | Any other failure of unicast data with an entry loses the neighbour, just as without local repair |
| `AodvUpkeep.RepairEnds` | src/ns-2.34/aodv/aodv.cc:187-195 | A repair not finished when its timer goes off leaves the route down, with its number as it is |
| `AodvLocalRepair.LoopFreeIffNoLocalRepair` | src/ns-2.34/aodv/aodv.cc:305-315 | Every reachable state is free of loops if and only if the agents are built without AODV_LOCAL_REPAIR: among all runs, and also among those only that can come about in time, with packets of nodes of the network, failures of packets that were sent, and repair timers that go off when due |
| `AodvLocalRepair.LoopingRun` | src/ns-2.34/aodv/aodv.cc:363-377 | A run of eleven events at four nodes in a line, built with local repair, after which two nodes send the packets for a third to each other: a packet fails on its last hop, the repair is given up, and a late answer is taken |
| `AodvLocalRepair.LoopNeedsRepair` | src/ns-2.34/aodv/aodv.cc:305-315 | Also with local repair compiled in, a run in which no event starts a repair is free of loops |
| `AodvLocalRepair.RepairTimeoutStale` | src/ns-2.34/aodv/aodv.cc:187-195 | The repair timer leaves a route as fresh as it was exactly when the route is not under repair |
| `AodvTiming.SendRequestAttempt` | src/ns-2.34/aodv/aodv.cc:1021-1119 | What an attempt to ask for a route does to the entry, the send buffer and the messages sent: nothing, one request with the planned ring, or dropping all packets for the destination |
| `AodvTiming.RequestTimeoutBounds` | src/ns-2.34/aodv/aodv.cc:1078-1085 | A request sets its deadline after now, at most MAX_RREQ_TIMEOUT ahead |
| `AodvSearch.EventSought` | src/ns-2.34/aodv/aodv.cc:1006-1086 | Whatever event happens to a node, a search for a destination without a route either finds one or goes on by at most one attempt of sendRequest; nothing else touches its timeout, counter and ring |
| `AodvSearch.TtlGrows` | src/ns-2.34/aodv/aodv.cc:1054-1071 | In any run of a node, as long as it has no route to a destination, the rings of the requests that it sends for it strictly grow until one covers the whole network |
| `AodvSearch.CounterCounts` | src/ns-2.34/aodv/aodv.cc:1063-1067 | In any run, while there is no route and the search is not given up, the counter of the entry grows with the network-wide requests in what the node has sent, and with nothing else |
| `AodvSearch.WideRequestsBounded` | src/ns-2.34/aodv/aodv.cc:1032-1045 | In any run at most RREQ_RETRIES + 1 network-wide requests for a destination go out before a route is found or the search is given up; after that many the next event sends none |
| `AodvSearch.RequestsSpaced` | src/ns-2.34/aodv/aodv.cc:1027-1030 | In any run a request goes out only when the last deadline is over, and sets the next one ahead by at most MAX_RREQ_TIMEOUT |
| `AodvSearch.SilentAfterGivingUp` | src/ns-2.34/aodv/aodv.cc:1036-1045 | In any run giving up empties the buffer of packets for the destination and is followed by a full MAX_RREQ_TIMEOUT without a request, while there is no route |
| `AodvTiming.OncePerWindow` | src/ns-2.34/aodv/aodv.cc:640-652 | A node, built with local repair or without, processes the same request at most once in any BCAST_ID_SAVE, however receptions and purges interleave |
| `AodvTiming.CacheHasNoDuplicates` | src/ns-2.34/aodv/aodv.cc:208-240 | In both builds the cache of broadcast ids never holds a pair twice |
| `AodvAgent.Agent.constructor` | src/ns-2.34/aodv/aodv.cc:135-148 | A new agent has number 2, broadcast id 1 and nothing else |
| `AodvAgent.Agent.RecvRequest` | src/ns-2.34/aodv/aodv.cc:621-781 | The whole new state after a request: duplicate check, reverse route, buffered packets, answer or forwarding |
| `AodvAgent.Agent.LearnReverse` | src/ns-2.34/aodv/aodv.cc:654-698 | The reverse route is taken over when the request is fresher, and buffered packets for the source leave |
| `AodvAgent.Agent.AnswerRequest` | src/ns-2.34/aodv/aodv.cc:702-781 | Answer as destination, answer from the table with both precursors, or pass on with the larger wanted number |
| `AodvAgent.Agent.RecvReply` | src/ns-2.34/aodv/aodv.cc:783-890 | The new state after a reply: fresher routes only, latency history, buffered packets, forwarding and precursors; the asserted flag of the reverse route holds |
| `AodvAgent.Agent.RecvError` | src/ns-2.34/aodv/aodv.cc:893-947 | All routes through the sender that the report reaches go down with the reported number, those with precursors are reported on; the parity assertion holds |
| `AodvAgent.Agent.HandleLinkFailure` | src/ns-2.34/aodv/aodv.cc:327-360 | Every route through the failed neighbour goes down with its number counted on, is reported, and the neighbour leaves all precursor lists; the parity assertion holds |
| `AodvAgent.Agent.DeleteNeighbor` | src/ns-2.34/aodv/aodv.cc:1281-1298 | The own number rises by two, the neighbour leaves the list, its routes fail |
| `AodvAgent.Agent.PurgeNeighbors` | src/ns-2.34/aodv/aodv.cc:1304-1316 | Exactly the neighbours that have expired are deleted, in list order |
| `AodvAgent.Agent.PurgeTable` | src/ns-2.34/aodv/aodv.cc:477-520 | The effect of one pass over all routes: expiry, sending buffered packets, or a new search; the assertions on flag and parity hold |
| `AodvAgent.Agent.SendRequest` | src/ns-2.34/aodv/aodv.cc:1006-1121 | The new state after an attempt to ask for a route |
| `AodvAgent.Agent.PlanRequest` | src/ns-2.34/aodv/aodv.cc:1054-1086 | Ring, counter and deadline of a request |
| `AodvAgent.Agent.TimePerHop` | src/ns-2.34/aodv/aodv.cc:246-264 | The mean of the positive latencies, or the constant when there is none |
| `AodvAgent.Agent.ResolveRoute` | src/ns-2.34/aodv/aodv.cc:411-474 | Forward, buffer and search, or report, depending on the route and on who sent the packet |
| `AodvAgent.Agent.RecvData` | src/ns-2.34/aodv/aodv.cc:529-584 | TTL handling, loop check and dispatch of a data packet |
| `AodvAgent.Agent.PurgeIds` | src/ns-2.34/aodv/aodv.cc:228-240 | Exactly the expired broadcast ids leave the cache, in order |
| `AodvAgent.Agent.IdLookup` | src/ns-2.34/aodv/aodv.cc:217-226 | Whether a pair is cached |
| `AodvAgent.Agent.LinkLayerFailed` | src/ns-2.34/aodv/aodv.cc:277-325 | Packets that are not unicast data, or have no entry, are ignored; otherwise the neighbour is deleted |
| `AodvAgent.Agent.FlushQueue` | src/ns-2.34/aodv/aodv.cc:691-697 | Every buffered packet for the destination is taken out and forwarded |
| `AodvAgent.Agent.RecvHello` | src/ns-2.34/aodv/aodv.cc:1240-1264 | A new neighbour is added with the own number raised by two, a known one prolonged |
| `AomdvNetwork.AomdvLoopFree` | src/ns-2.34/aomdv/aomdv.cc:837-907 | In every reachable state, whichever of its paths each node picks, a packet never returns to a node it has left |
| `AomdvNetwork.NextHopFresher` | src/ns-2.34/aomdv/aomdv.cc:1043-1051 | For every path of every entry the next hop, unless it is the destination, has a newer number, or the same one and a strictly smaller advertised hop count |
| `AomdvNetwork.Walk` | src/ns-2.34/aomdv/aomdv.cc:837-907 | For every rule of choosing among paths the walk towards a destination ends, there or at a node without a path |
| `AomdvNetwork.RunInv` | src/ns-2.34/aomdv/aomdv.cc:784-1340 | Every reachable state: numbers under the control of the destination, every path offered by its next hop in a message, every message backed by its sender, one hop count per teller, destination and number |
| `AomdvNetwork.PathListInvariant` | src/ns-2.34/aomdv/aomdv_rtable.cc:180-285 | In every reachable state the paths of an entry have distinct next hops and distinct last hops, the counter is the length of the list and within aomdv_max_paths_ (when that is at least 1), the entry is up exactly with a path, and no path is longer than a fixed advertised hop count |
| `AomdvNetwork.MessagesMatch` | src/ns-2.34/aomdv/aomdv.cc:856-863 | What the handlers assert of a received message holds for every message that can reach a node: well-formed numbers, and a path found again has hop count one more than received |
| `AomdvNetwork.SameNumberFindsUp` | src/ns-2.34/aomdv/aomdv.cc:856-856 | A message with the number of an entry finds that entry up |
| `AomdvNetwork.AdvertisedHopsConstant` | src/ns-2.34/aomdv/aomdv.cc:1043-1046 | Numbers never fall, and the advertised hop count is fixed once it is finite until the number changes |
| `AomdvNetwork.DestinationControls` | src/ns-2.34/aomdv/aomdv.cc:931-944 | Entries that are up carry even numbers issued by their destination, the others 0 or an odd number at most one ahead |
| `AomdvNetwork.AnswerStepsByTwo` | src/ns-2.34/aomdv/aomdv.cc:931-944 | A destination answers with its own number, or with two more when the request asks for one beyond it |
| `AomdvDiscovery.TwoPathsFound` | src/ns-2.34/aomdv/aomdv.cc:784-1215 | From every reachable state, for two paths that share only their ends and on which nobody knows a route: a node that may ask has a run in which messages only go from neighbour to neighbour along the two paths, after which its entry has exactly these two paths with their next hops, last hops and lengths, provided that the second is at most aomdv_prim_alt_path_len_diff_ longer and two paths are allowed; the packet has left along the first |
| `AomdvIds.RunIds` | src/ns-2.34/aomdv/aomdv.cc:1522-1522 | In every reachable state every request id that is remembered or has been sent was issued by the source named with it |
| `AomdvSteps.EventLegal` | src/ns-2.34/aomdv/aomdv.cc:688-780 | Any event at one node keeps the path-list invariant; paths are old ones or the one offered; numbers, advertised hop counts and what is sent change only in the allowed ways |
| `AomdvSteps.ReverseOfferGood` | src/ns-2.34/aomdv/aomdv.cc:837-907 | The reverse path of a request: the entry stays in order and takes in no path but the offered one, and is up with that number unless the request is dropped |
| `AomdvSteps.ForwardOfferGood` | src/ns-2.34/aomdv/aomdv.cc:1092-1143 | The same for the forward path of a reply |
| `AomdvEffects.ForwardOfferTakesIn` | src/ns-2.34/aomdv/aomdv.cc:1092-1143 | A path offered with a newer number becomes the only one. With the number of the entry, and fewer hops than advertised, a path that is listed is kept longer; one that shares no next or last hop, for which there is room and which is at most aomdv_prim_alt_path_len_diff_ longer than every other is put behind the others; any other leaves the entry as it is. The reply is dropped if and only if its path is not listed afterwards |
| `AomdvEffects.ReverseOfferTakesIn` | src/ns-2.34/aomdv/aomdv.cc:837-907 | The same for the path back that a request offers, with the exact condition under which the request is dropped: too long, or for this node and longer than every path with its last hop |
| `AomdvEffects.OldPathsStay` | src/ns-2.34/aomdv/aomdv.cc:1114-1131 | Taking in an offer with the number of the entry keeps all old paths in their places and adds at most the offered one at the end; it is listed afterwards if and only if it was, or fits |
| `AomdvEffects.AcceptedReply` | src/ns-2.34/aomdv/aomdv.cc:1145-1215 | A reply whose path is taken in sends what waits for its destination along the first path, and is passed on if and only if it is not for this node, the route back is up, its request is remembered and not answered yet, and its time to live is not 1: one reply with the advertised hop count and the last hop of the first path |
| `AomdvEffects.DroppedReply` | src/ns-2.34/aomdv/aomdv.cc:1132-1143 | Any other reply changes no entry and sends nothing |
| `AomdvEffects.AcceptedRequest` | src/ns-2.34/aomdv/aomdv.cc:909-1053 | A request that is not dropped sends what waits for its source, and then exactly one message or none: the answer of the destination, one answer per request from the table, or the request passed on the first time it is heard |
| `AomdvEffects.DroppedRequest` | src/ns-2.34/aomdv/aomdv.cc:815-907 | A dropped request is remembered, may leave its path, and does nothing else |
| `AomdvUpkeep.ErrorRoutes` | src/ns-2.34/aomdv/aomdv.cc:1273-1320 | An error report cuts exactly the paths through its sender to destinations named with a number not below theirs; a route that loses its last path goes down with the largest number heard |
| `AomdvUpkeep.ErrorSends` | src/ns-2.34/aomdv/aomdv.cc:1290-1340 | The node reports on exactly the routes that lost their last path and that others may be using |
| `AomdvUpkeep.LossSends` | src/ns-2.34/aomdv/aomdv.cc:1727-1770 | Losing a neighbour is told exactly for the listed routes whose last path it was and that others may be using; then exactly the packets that were on their way to it, and have another path, take that |
| `AomdvUpkeep.FailureEffect` | src/ns-2.34/aomdv/aomdv.cc:473-519 | Exactly the paths through the neighbour are cut, and a route without paths goes down above all numbers heard |
| `AomdvUpkeep.NeighborsPurged` | src/ns-2.34/aomdv/aomdv.cc:1783-1795 | The neighbour timer takes away exactly the paths through neighbours that were not heard of in time; a route stays up exactly with another path |
| `AomdvUpkeep.AttemptEffect` | src/ns-2.34/aomdv/aomdv.cc:1413-1534 | An attempt to ask for a route: nothing, dropping the packets, or exactly one request with ring, counter and deadline given |
| `AomdvUpkeep.ResolveEffect` | src/ns-2.34/aomdv/aomdv.cc:568-632 | What happens to a packet with a route, an own one without, and a foreign one without |
| `AomdvUpkeep.PurgeRouteEffect` | src/ns-2.34/aomdv/aomdv.cc:635-682 | The timer at one route: which paths stay, when the route goes down and with which number, what is sent and what is dropped |
| `AomdvUpkeep.RoutesPurged` | src/ns-2.34/aomdv/aomdv.cc:635-682 | The timer takes down exactly the listed routes that have expired together with all their paths |
| `AomdvUpkeep.HelloIsReply` | src/ns-2.34/aomdv/aomdv.cc:1667-1709 | A hello is noted and then does what the one-hop reply of its sender does |
| `AomdvAgent.Agent.RecvRequest` | src/ns-2.34/aomdv/aomdv.cc:784-1053 | The whole new state after a request; the assertions on flag and hop count hold |
| `AomdvAgent.Agent.AnswerRequest` | src/ns-2.34/aomdv/aomdv.cc:927-1053 | Answer as destination, answer once from the table, or pass on unless the request is a duplicate; the parity assertion holds |
| `AomdvAgent.Agent.RecvReply` | src/ns-2.34/aomdv/aomdv.cc:1058-1215 | The whole new state after a reply; the assertions on flag and hop count hold |
| `AomdvAgent.Agent.PassReply` | src/ns-2.34/aomdv/aomdv.cc:1184-1215 | A reply is passed on once per request, with the advertised hop count and the last hop of the first path |
| `AomdvAgent.Agent.RecvHello` | src/ns-2.34/aomdv/aomdv.cc:1667-1709 | The neighbour is noted and the hello read as a reply from it |
| `AomdvAgent.Agent.RecvError` | src/ns-2.34/aomdv/aomdv.cc:1273-1340 | Paths through the sender are cut, entries without paths go down with the highest number heard and are reported on when others use them; the parity and path-count assertions hold |
| `AomdvAgent.Agent.HandleLinkFailure` | src/ns-2.34/aomdv/aomdv.cc:473-519 | The same for a failed neighbour, with the number counted on |
| `AomdvAgent.Agent.PurgeTable` | src/ns-2.34/aomdv/aomdv.cc:635-682 | One pass over all entries: expired paths, routes without paths, buffered packets, searches |
| `AomdvAgent.Agent.ExpireRoute` | src/ns-2.34/aomdv/aomdv.cc:643-656 | Expired paths leave; with the last one the number becomes odd and the route goes down |
| `AomdvAgent.Agent.SendRequest` | src/ns-2.34/aomdv/aomdv.cc:1413-1534 | The new state after an attempt to ask for a route |
| `AomdvAgent.Agent.ResolveRoute` | src/ns-2.34/aomdv/aomdv.cc:568-632 | Forward, buffer and search, or report |
| `AomdvAgent.Agent.RecvData` | src/ns-2.34/aomdv/aomdv.cc:688-743 | TTL handling, loop check and dispatch of a data packet |
| `AomdvAgent.Agent.HelloTick` | src/ns-2.34/aomdv/aomdv.cc:235-246 | A hello is sent exactly when some route is up |
| `AomdvAgent.Agent.PurgeNeighbors` | src/ns-2.34/aomdv/aomdv.cc:1783-1795 | Exactly the neighbours that have expired are deleted, in list order |
| `AomdvAgent.Agent.DeleteNeighbor` | src/ns-2.34/aomdv/aomdv.cc:1727-1770 | The own number rises by two, the neighbour leaves the list, its paths fail, and its packets are taken out of the interface queue |
| `AomdvAgent.Agent.SalvageQueue` | src/ns-2.34/aomdv/aomdv.cc:1747-1763 | Data packets for the lost neighbour go out on another path if their destination has one and they have not been salvaged too often; packets for others stay |
| `AomdvRtable.PathList.Insert` | src/ns-2.34/aomdv/aomdv_rtable.cc:180-204 | A new node is linked behind the last one and counted |
| `AomdvRtable.PathList.Delete` | src/ns-2.34/aomdv/aomdv_rtable.cc:261-274 | The first node through a next hop is linked out, the others stay in order |
| `AomdvRtable.PathList.Purge` | src/ns-2.34/aomdv/aomdv_rtable.cc:388-406 | Scanning again after every deletion leaves exactly the paths that have not expired, in order |
| `AomdvRtable.PathList.IsNewDisjoint` | src/ns-2.34/aomdv/aomdv_rtable.cc:233-245 | Whether no path shares the next hop or the last hop |
| `AomdvRtable.PathList.LookupDisjoint` | src/ns-2.34/aomdv/aomdv_rtable.cc:219-230 | The first path with this next hop and last hop |
| `AomdvRtable.PathList.IsEmpty` | src/ns-2.34/aomdv/aomdv_rtable.cc:308-320 | Emptiness, with the assertions on the counter |
| `AomdvRtable.PathList.GetMaxHopcount` | src/ns-2.34/aomdv/aomdv_rtable.cc:346-359 | The hop count of the longest path, the sentinel for none |
| `AomdvRtable.PathList.GetMinHopcount` | src/ns-2.34/aomdv/aomdv_rtable.cc:361-373 | The hop count of the shortest path, the sentinel for none |
| `AomdvRtable.MaxCountAttained` | src/ns-2.34/aomdv/aomdv_rtable.cc:346-359 | The reported maximum bounds all paths and is the hop count of one of them |
| `AomdvRtable.MinHopcountLeast` | src/ns-2.34/aomdv/aomdv_rtable.cc:361-373 | The reported minimum is a lower bound, attained, and the sentinel exactly for an empty list |
| `RouteQueueList.AlwaysOrdered` | src/ns-2.34/aodv/aodv_rqueue.cc:50-138 | After any operations in the order of time at most 64 packets wait, their deadlines do not decrease and none lies beyond the timeout |
| `RouteQueueList.PurgeIsPrefix` | src/ns-2.34/aodv/aodv_rqueue.cc:219-260 | In such a buffer purging removes exactly the prefix of packets that have timed out |
| `RouteQueueList.AppendsBehind` | src/ns-2.34/aodv/aodv_rqueue.cc:50-86 | A new packet goes behind those in time, with a deadline thirty seconds ahead, and the oldest leaves exactly when 64 are in time |
| `RouteQueueList.Queue.Enqueue` | src/ns-2.34/aodv/aodv_rqueue.cc:50-86 | Timed-out packets go, then the oldest one if the buffer is full, then the new one is appended; verifyQueue holds |
| `RouteQueueList.Queue.Dequeue` | src/ns-2.34/aodv/aodv_rqueue.cc:88-104 | The oldest packet that has not timed out |
| `RouteQueueList.Queue.DequeueFor` | src/ns-2.34/aodv/aodv_rqueue.cc:106-138 | The oldest packet for the destination leaves, the others keep their order; verifyQueue holds |
| `RouteQueueList.Queue.PurgeQueue` | src/ns-2.34/aodv/aodv_rqueue.cc:219-260 | The repeated search and removal ends with exactly the packets that have not timed out, in order; the assertion on the predecessor holds |
| `RouteQueueList.Queue.RemoveHead` | src/ns-2.34/aodv/aodv_rqueue.cc:159-174 | The head leaves, head and tail are reset for the last one |
| `RouteQueueList.Queue.FindAgedPacket` | src/ns-2.34/aodv/aodv_rqueue.cc:219-230 | The first packet that has timed out, with its predecessor |
| `RouteQueueList.Queue.FindPacketWithDst` | src/ns-2.34/aodv/aodv_rqueue.cc:176-187 | The first packet for a destination, with its predecessor |
| `RouteQueue.WithoutRemove` | src/ns-2.34/aodv/aodv_rqueue.cc:106-138 | Taking out the first packet for a destination changes nothing else |
| `Asim.Allocator.NewUpdate` | src/ns-2.34/asim/asim.cc:844-959 | The result is the weighted max-min fair allocation with a full link for every normal flow if and only if short flows leave room; at most one round per link; the new loads and rates follow |
| `Asim.Allocator.Divide` | src/ns-2.34/asim/asim.cc:844-957 | The part that divides the links: fair exactly when there is room, positive in any case |
| `Asim.FairUnique` | src/ns-2.34/asim/asim.cc:895-957 | There is at most one weighted max-min fair allocation, so the result does not depend on the order of links and flows |
| `Asim.BottlenecksMakeFair` | src/ns-2.34/asim/asim.cc:904-931 | An allocation in which every normal flow crosses a full link where no other normal flow has a larger share of its demand is weighted max-min fair |
| `Asim.FeasibleNeedsRoom` | src/ns-2.34/asim/asim.cc:849-868 | Whenever any feasible allocation gives every flow something, short flows leave room on every link |
| `Asim.Allocator.Round` | src/ns-2.34/asim/asim.cc:908-931 | One round: the accounts balance, the bottleneck is used up, all flows scaled so far are settled at a full link, nobody asks for more than before |
| `Asim.Allocator.Turn` | src/ns-2.34/asim/asim.cc:904-943 | After a round the next most congested link is no more congested than the last |
| `Asim.Allocator.FindBottleneck` | src/ns-2.34/asim/asim.cc:878-888 | The link with the largest ratio of what is asked for to what is left, or none |
| `Asim.Allocator.OpenAccounts` | src/ns-2.34/asim/asim.cc:849-868 | The accounts before scaling: demands of normal flows, and capacity less short flows |
| `Asim.Allocator.ScaleFlow` | src/ns-2.34/asim/asim.cc:914-926 | One flow is divided by the congestion and taken off both accounts of its links |
| `Asim.ScaleKeepsBalance` | src/ns-2.34/asim/asim.cc:914-926 | That keeps every account equal to its sum over flows |
| `Asim.ScaleKeepsSlack` | src/ns-2.34/asim/asim.cc:914-926 | and keeps the distance between what a link can carry at this congestion and what is asked of it |
| `Asim.Allocator.UpdateHelper` | src/ns-2.34/asim/asim.cc:678-694 | The load of each link is the sum over the routes |
| `Asim.Allocator.Update` | src/ns-2.34/asim/asim.cc:697-721 | Previous and new arrival rates of each link |
| `Tbf.Conformance` | src/ns-2.34/adc/tbf.cc:74-152 | In every run the bits sent over any interval stay within the bucket plus rate times length, exactly when every packet that left fits the bucket |
| `Tbf.ShapesIffFit` | src/ns-2.34/adc/tbf.cc:74-152 | For any kind of packets: in all runs with only such arrivals the output keeps to the envelope, if and only if there is no queue or every packet of the kind fits the bucket |
| `Tbf.TokensBounded` | src/ns-2.34/adc/tbf.cc:117-126 | Tokens never exceed the bucket, and are never negative while all packets fit |
| `Tbf.TimerAtConformance` | src/ns-2.34/adc/tbf.cc:107-109 | The timer is pending exactly while packets wait, never in the past, and due when the head has its tokens |
| `Tbf.FirstInFirstOut` | src/ns-2.34/adc/tbf.cc:87-95 | What has left, followed by what waits, is what was accepted, in the order of arrival |
| `Tbf.DropsWhenFull` | src/ns-2.34/adc/tbf.cc:87-113 | A packet is dropped exactly when the queue is full, or when there is no queue and tokens lack |
| `Tbf.LeavesAtOnce` | src/ns-2.34/adc/tbf.cc:97-114 | A packet that finds the queue empty leaves at once if and only if there are tokens for all its bits; otherwise it waits exactly until there will be, or is dropped when there is no queue |
| `Tbf.FirstPacket` | src/ns-2.34/adc/tbf.cc:76-81 | The first packet of every run leaves at once if and only if it fits the bucket |
| `Tbf.TimeoutTokens` | src/ns-2.34/adc/tbf.cc:135-144 | When the timer expires the tokens are exactly those of the head, capped by the bucket |
| `Tbf.Filter.Receive` | src/ns-2.34/adc/tbf.cc:74-115 | The whole new state after an arrival |
| `Tbf.Filter.Expired` | src/ns-2.34/adc/tbf.cc:128-152 | The whole new state after the timer; the queue is never found empty |
| `Tbf.Filter.GetUpdatedTokens` | src/ns-2.34/adc/tbf.cc:117-126 | Tokens after the time since the last update |
| `Reassembly.NextIsFirstMissing` | src/ns-2.34/baytcp/tcp-full-bay.cc:1314-1404 | For segments of one segmentation in any order with repeats, rcv_nxt_ is the first byte that has not arrived, and the queue holds in order exactly what has arrived beyond it |
| `Reassembly.NeverMovesBack` | src/ns-2.34/baytcp/tcp-full-bay.cc:1054-1104 | For such segments rcv_nxt_ never decreases |
| `Reassembly.DrainTracks` | src/ns-2.34/baytcp/tcp-full-bay.cc:1380-1403 | Draining stops at the first hole with nothing missing before it |
| `Reassembly.InsertTracks` | src/ns-2.34/baytcp/tcp-full-bay.cc:1324-1371 | Insertion keeps the list sorted and holding what has arrived |
| `Reassembly.AddFlags` | src/ns-2.34/baytcp/tcp-full-bay.cc:1377-1404 | What add() leaves is the rest of the list with the segment in it; a flag is returned if and only if a segment taken off by this call carries it, none while the head waits |
| `ReassemblyCuts.AlwaysExactIffRight` | src/ns-2.34/baytcp/tcp-full-bay.cc:801-829 | For segments cut in any way, in any order, with repeats: rcv_nxt_ is the first byte that has not arrived after every arrival if and only if every arrival is a right step: old, late, or with nothing waiting; or else, counted by its full size, not reaching into the head of the queue, with the bytes trimmed from it waiting behind its end and no segment spanning the end of what draining takes off |
| `ReassemblyCuts.StepExact` | src/ns-2.34/baytcp/tcp-full-bay.cc:1314-1404 | The same for one arrival at any receiver that was right so far, whose queue need not be sorted |
| `ReassemblyCuts.FirstMissingIff` | src/ns-2.34/baytcp/tcp-full-bay.cc:1314-1404 | At a sorted queue the first missing byte is expected next if and only if the segment is old, or late, or nothing waits, or it starts at rcv_nxt_, does not reach into the head, and the last segment that draining takes off reaches furthest |
| `ReassemblyCuts.OverlapSticks` | src/ns-2.34/baytcp/tcp-full-bay.cc:1344-1379 | A segment with the next byte that reaches into the waiting head goes behind it, and rcv_nxt_ stays at a byte that has arrived |
| `ReassemblyCuts.ContainedMovesBack` | src/ns-2.34/baytcp/tcp-full-bay.cc:1381-1402 | When a hole before two overlapping waiting segments is filled, rcv_nxt_ becomes the end of the second; that byte is missing exactly when the second does not end inside the first |
| `ReassemblyCuts.DrainedRight` | src/ns-2.34/baytcp/tcp-full-bay.cc:1380-1403 | For every sorted queue, however cut: the byte expected after draining is missing from it exactly when the last segment taken off reaches furthest |
| `ReassemblyCuts.TrimmedOverruns` | src/ns-2.34/baytcp/tcp-full-bay.cc:801-829 | For every receiver in order, when a segment with the next byte arrives and the head of the queue is out of its reach: everything before the new rcv_nxt_ has arrived exactly when nothing was trimmed from the segment |
| `ReassemblyList.Queue.AddSegment` | src/ns-2.34/baytcp/tcp-full-bay.cc:1314-1404 | The doubly linked list after add(), the new rcv_nxt_ and the flags returned, as a function of the old contents |
| `ReassemblyList.Queue.InsertSegment` | src/ns-2.34/baytcp/tcp-full-bay.cc:1324-1371 | The list stays well linked with the segment in its place |
| `ReassemblyList.Queue.DrainHead` | src/ns-2.34/baytcp/tcp-full-bay.cc:1380-1403 | The loop that takes segments off the head |
| `ReassemblyList.Queue.Unlink` | src/ns-2.34/baytcp/tcp-full-bay.cc:1388-1395 | Removing any node keeps the other links, the head and the tail right |
| `ReassemblyList.Queue.Clear` | src/ns-2.34/baytcp/tcp-full-bay.cc:1297-1307 | The list is emptied |
| `ReassemblyList.Queue.Receive` | src/ns-2.34/baytcp/tcp-full-bay.cc:801-829 | Trimming followed by the data part, as a function of the old state |
| `ReassemblyList.Queue.ReceiveData` | src/ns-2.34/baytcp/tcp-full-bay.cc:1054-1104 | In-order data past an empty queue, or addition to the queue |
| `Signalling.ReservedIsHeld` | src/ns-2.34/adc/param-adc.cc:78-96 | At any time in any interleaving, teardowns of rejected flows included, the reserved rate of a link is the sum of the rates it holds less those of stray teardowns, and within its capacity; the number of flows is short by the stray teardowns and by what it started with |
| `Signalling.RateRight` | src/ns-2.34/adc/param-adc.cc:84-87 | The reserved rate is right if and only if every stray teardown at the link was for a rate of zero; then the link holds no more than its capacity |
| `Signalling.CountRight` | src/ns-2.34/adc/salink.cc:59-177 | The number of flows is right if and only if the link is traced since it held none, with no stray teardown after that |
| `Signalling.AdmittedIffRoom` | src/ns-2.34/adc/param-adc.cc:89-96 | In every run, stray teardowns included, a request is admitted at a link if and only if the rates held there, less those of stray teardowns, and its own fit the capacity |
| `Signalling.RejectedIffNoRoom` | src/ns-2.34/adc/param-adc.cc:89-96 | A flow whose request has passed its whole path is rejected if and only if some link of the path had no room when the request passed |
| `Signalling.StrayOverAdmits` | src/ns-2.34/adc/salink.cc:127-132 | For every capacity and every rate that fits it once but not twice, a run in which a link holds twice the rate after a rejected flow has been torn down |
| `Signalling.AllOrNothing` | src/ns-2.34/adc/salink.cc:114-132 | Once the confirmation has crossed the path all links not yet torn down hold the flow if it was accepted, none otherwise, and no slot is left |
| `Signalling.RequestInv` | src/ns-2.34/adc/salink.cc:87-110 | A request at a link keeps the books of all links |
| `Signalling.ConfirmInv` | src/ns-2.34/adc/salink.cc:114-126 | A confirmation does too |
| `Signalling.TeardownInv` | src/ns-2.34/adc/salink.cc:127-132 | and a teardown of an accepted flow |
| `Signalling.StrayInv` | src/ns-2.34/adc/salink.cc:127-132 | A stray teardown changes the books by its rate and one flow |
| `Signalling.TraceInv` | src/ns-2.34/adc/salink.cc:168-180 | Starting a trace sets the number of flows to 0, whatever the link holds |
| `SignallingLink.SALink.OnRequest` | src/ns-2.34/adc/salink.cc:87-110 | The decision is true exactly with one that was true before and a rate that fits what is not reserved; reservation and slot after a request, or the end of the simulation when no slot is free |
| `SignallingLink.SALink.OnConfirm` | src/ns-2.34/adc/salink.cc:114-126 | The slot is freed and a rejected rate given back, if the flow has a slot |
| `SignallingLink.SALink.OnTeardown` | src/ns-2.34/adc/salink.cc:127-132 | The rate and the number of flows go down unconditionally |
| `SignallingLink.SALink.StartTrace` | src/ns-2.34/adc/salink.cc:168-180 | With a trace channel attached the number of flows is set to 0 |
| `SignallingLink.SALink.Find` | src/ns-2.34/adc/salink.cc:185-205 | The first slot with this id |
| `LossMeter.HolesInOrder` | src/ns-2.34/common/ivs.cc:282-314 | In every run the holes are disjoint, ordered by number and time, and behind the next number |
| `LossMeter.ScanDropsPrefix` | src/ns-2.34/common/ivs.cc:347-364 | Each scan drops exactly a prefix |
| `LossMeter.ListHolds` | src/ns-2.34/common/ivs.cc:340-364 | In every run the list holds exactly those of all holes ever seen that are not older than the latest start that the window has had |
| `LossMeter.CountsAllLosses` | src/ns-2.34/common/ivs.cc:340-364 | The list holds all holes of the current window if and only if none lies between its start and the latest start so far |
| `LossMeter.CountRight` | src/ns-2.34/common/ivs.cc:338-364 | The packets counted are all those lost within the window if and only if no hole of the window lies before the latest start so far; otherwise too few are counted |
| `LossMeter.WindowMovesBack` | src/ns-2.34/common/ivs.cc:340-348 | A run in which the window moves back over a hole that it has left, and counts nothing |
| `LossMeter.EachAccounted` | src/ns-2.34/common/ivs.cc:282-314 | Each number from the first one up to the next has either arrived or lies in a hole, never both, and no two holes share a number |
| `LossMeter.NothingUncounted` | src/ns-2.34/common/ivs.cc:282-314 | The sizes of all holes and the number of arrivals add up to the numbers passed |
| `LossMeter.SlowFlowThresholds` | src/ns-2.34/common/ivs.cc:387-395 | For slow flows no loss is unloaded, one loaded, more congested |
| `LossMeter.FastFlowThresholds` | src/ns-2.34/common/ivs.cc:387-395 | For other flows more than five in a hundred packets lost is loaded, more than fifteen congested |
| `LossMeter.MeanMoves` | src/ns-2.34/common/ivs.cc:318-329 | A sample moves the mean an eighth of the way towards itself, the rest of the way goes into the variance, and the window ends twice the variance ago |
| `LossMeter.SteadyFlow` | src/ns-2.34/common/ivs.cc:318-342 | While packets come equally far apart nothing varies, and the window ends now and is one round trip long |
| `LossMeterList.Receiver.Measure` | src/ns-2.34/common/ivs.cc:271-396 | The new state and the signal after a packet; the tail is the last node whenever the list is not empty |
| `LossMeterList.Receiver.Scan` | src/ns-2.34/common/ivs.cc:347-364 | The scan in place leaves the recent holes and returns the packets in those older than the end of the window |
| `LossMeterList.Receiver.AddHole` | src/ns-2.34/common/ivs.cc:295-308 | A hole goes behind the tail |
| `McastClassifier.BucketLookup` | src/ns-2.34/classifier/classifier-mcast.cc:87-100 | The bucket of a source and group gives the same entry as a scan of all entries, newest first |
| `McastClassifier.BucketLookupStar` | src/ns-2.34/classifier/classifier-mcast.cc:102-113 | So does the bucket of a group for shared trees |
| `McastClassifier.BucketChange` | src/ns-2.34/classifier/classifier-mcast.cc:259-270 | Changing an interface in the bucket is changing it in the list |
| `McastClassifier.ChangedIsFound` | src/ns-2.34/classifier/classifier-mcast.cc:259-270 | The changed entry is the one found under its new interface if and only if no entry in front of it has that interface; otherwise the newest of those is found |
| `McastClassifier.ClassifiedByPlace` | src/ns-2.34/classifier/classifier-mcast.cc:115-155 | The outcome from the places of entries in the two lists: the first own entry for the interface, else the first shared one for it; else the first own entry, or else the first shared one, for any interface, which hits only if it takes any interface; a miss exactly when neither list has an entry |
| `McastClassifier.Classifier.ClassifyPacket` | src/ns-2.34/classifier/classifier-mcast.cc:115-155 | The outcome on the two lists: exact interface before any interface, source entry before shared tree, else a miss or a wrong interface |
| `McastClassifier.Classifier.SetHash` | src/ns-2.34/classifier/classifier-mcast.cc:166-177 | An entry becomes the newest one |
| `McastClassifier.Classifier.ChangeIface` | src/ns-2.34/classifier/classifier-mcast.cc:259-270 | The newest matching entry gets the new interface |
| `McastClassifier.Classifier.LookupEntry` | src/ns-2.34/classifier/classifier-mcast.cc:87-100 | The newest entry for source, group and interface |
| `McastClassifier.Classifier.LookupGroup` | src/ns-2.34/classifier/classifier-mcast.cc:102-113 | The newest shared-tree entry for group and interface |

## Left out

- Sequence numbers and hop counts wrap at 32, 16 or 8 bits in the C++ code; here they do not.
- AODV_MAX_ERRORS: a RERR may list any number of destinations.
- AodvAgent.Agent.LinkLayerFailed: does not model the branch of local repair, which is on values only, nor the filtering of the interface queue, because that only drops packets.
- Interface-queue filtering after a link failure of AODV: `PriQueue` is not part of this model; the packets only leave a queue.
- AODV with local repair is modelled on values only (`Aodv.Handle` with the switch on), not in the agent class.
- Agent.SendReply and Agent.SendHello of AODV: helpers of the handlers above; trace output, packet allocation, jitter and delays are left out.
- AODV latency samples for replies that report zero hops are no samples: the division by zero is not modelled.
- AOMDV link-disjoint paths and link-layer detection: not compiled as shipped.
- AOMDV interface queue: `PriQueue` is not part of this model; what it holds when neighbours are purged, and how often each packet has been salvaged, are inputs of the event.
- AOMDV `rt_hops`: the field is never set, so the assertions that read it are left out.
- AOMDV path lists inside the agent are values; `AomdvRtable.PathList` has the operations on the linked list, with the predecessor of a node found by the search where the C++ list stores it.
- Routing tables are maps together with the order of their list; the linked list of entries itself is not modelled.
- AodvDiscovery.DiscoverySucceeds: says that a search can succeed from any state, not that it will, because messages may be lost.
- AomdvDiscovery.TwoPathsFound: for paths on which nobody between the ends knows a route or a later number; a node that does answers itself, or makes the destination take a new number, which drops the first path.
- AODV and AOMDV timers: how often they fire; any time and order of events is allowed.
- TcpAgent and the rest of BayFullTcpAgent: congestion control, FIN handling, SYN handling, upcalls; FIN and SYN segments are not modelled.
- Reassembly.NextIsFirstMissing: for segments of one segmentation; for others it is false, and `ReassemblyCuts.AlwaysExactIffRight` says exactly when it holds.
- AODV local repair: a timed run asks of its events only what is said above; periodic timers need not go off.
- Asim queueing formulas: drop rates, delays and the demands computed from them are inputs; `asimstd.cc` repeats the same algorithm with vectors.
- Tbf with a rate that is not positive: the C++ code divides by it.
- Signalling: a lost message stops its flow where it is, and the requests, confirmations and teardowns of one flow do not overtake each other; teardowns beyond these are the stray ones. Trace output is left out.
- LossMeter: a sequence number that goes backward aborts the program, so runs have none, and round-trip times are not negative; the gap estimator `ipg_` is an input.
- McastClassifier: slots and the Tcl upcalls for misses; the outcome of a miss is only named.
- Other admission controllers, estimators, traffic sources, mobility and tracing: nothing to prove beyond their formulas.
