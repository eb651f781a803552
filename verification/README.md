# Verification model of srl-rift

A Dafny model of the protocol core of srl-rift, an implementation of RIFT (RFC 9692) in Go. It covers five parts and
the claims that span them:

1. **Route computation** (`internal/spf`): the southbound Dijkstra with inherited next-hop sets, the northbound default
   route, prefix attachment, route preference with ECMP merging over shared route objects, positive disaggregation.
   Main results: distances and next-hop sets are exact; the table is independent of every map order; the default route
   is exactly the cheapest uplinks if and only if no attached default undercuts them; and in every converged two-level
   fabric, of which there is one for every layout of links, a spine announces a prefix for disaggregation exactly when a
   spine beside it misses a leaf it is routed through, and that leaves no black hole for a prefix if and only if its
   length is 0 to 32, which nothing on the way checks.
2. **Flooding** (`internal/tie`): the link-state database, self-origination, the handlers of TIE, TIDE and TIRE, the
   queues, TIDE chunking, lifetimes. Main results: invariants over every run; a whole TIDE round is complete with
   bounded excess; one lossless round of TIDEs, requests and answers synchronises two nodes, even while the listing node
   goes on with its work; and in a fabric of any number of engines at work flooding brings a TIE to every node that the
   scope rules let it reach.
3. **LIE machine** (`internal/lie`): the event-queue state machine of section 6.2.1 of RFC 9692. Main results: the
   self-feeding queue ends, the whole effect of one LIE in every state, the reachable states, and three-way handshake
   safety for any number of machines over a network that loses, repeats and reorders.
4. **Thrift codec and envelope** (`internal/encoding`): encoder, decoder, field skipping. Main results: round trip in
   any order of sets and maps, transparency of unknown fields, totality, and exactly when a decoded packet keeps the
   size caps.
5. **FIB programming** (`internal/agent`): the synchronisation of routes and next-hop groups. Main results: the tables
   end exact and no route dangles at any step in between.

## How it is laid out

Code that works in place is a class or a method with loops, proved equal to a function or relation on plain values;
the properties are lemmas about those functions and relations.

| files | content |
|---|---|
| `Digits`, `Types`, `Prefixes`, `Routes` | division for digits, shared values, prefix strings and group names, routes and tables |
| `Graph`, `Southbound`, `FreeLink`, `Northbound`, `Disagg`, `SpfEngine`, `SpfExact` | paths and shortest paths, the computations, what a link of cost 0 breaks, the merge, and the same in terms of stored entries |
| `Fabric`, `FabricExact`, `FabricExists` | a converged two-level fabric and the disaggregation theorem; what its spines and leaves compute, exactly; a converged state of every such fabric |
| `Lsdb`, `Scope`, `Originate`, `TideChunks` | order of identities and headers, database, scope rules, originated content, chunking |
| `FloodSpec`, `FloodEngine`, `FloodExact` | the steps of the flood engine as relations, the engine as an object, and what each input does to entries and queues |
| `FloodInvariants`, `TideRound`, `Sync`, `SyncRun`, `Interleaved`, `Flooding`, `FloodingRun` | all runs, a whole round at the receiver, two nodes, two engines at work, two nodes of which one does not wait, a fabric of any number of nodes, and one such fabric |
| `LieFsm`, `LieMachine`, `LieInvariants`, `LieExact`, `Handshake`, `HandshakeRun` | the tables, the machine as an object, reachable states, what one input does, many machines, a handshake that completes |
| `Wire`, `Schema`, `Codec`, `CodecMachine`, `CodecEncoder`, `CodecRoundTrip`, `CodecLimits`, `Envelope`, `CodecThrough` | bytes and terms, the field tables of both sides, decoding, the two objects, the properties, the whole way there and back |
| `FibSync` | the two external tables and the agent that programs them |

A Go map iteration is a nondeterministic choice of the next key; a slice or map a method updates is a `seq` or `map`
field; a pointer that may be nil is an `Option`. Go integers are written as `int`, with `Wrap32` where int32 arithmetic
can wrap: route metrics, distances, remaining lifetimes. Time is a parameter in nanoseconds. A send appends to an
output sequence.

The packet records of the codec are maps from field identifier to value, driven by two tables, one for what the encoder
writes and one for what the decoder reads (`Schema`). A record does not hold a field whose Go value is nil; an empty
set, list or string that the encoder does not write is not held either, which is what "equal up to nil versus empty"
means here.

## What the code does not do

Where the code and its documentation differ the model follows the code.

- The comment on `UpdateLocalPrefixes` (`internal/tie/flood.go:106-110`) says that it re-originates the prefix TIEs; the
  code only stores the list, which takes effect with the next origination. `FloodSpec.Next` models that.
- `nhAddrsEqual` (`internal/agent/agent.go:533-543`) speaks of sorted slices; nothing sorts them, so a change of order
  alone makes a group be rewritten. `FibSync.Stale` compares in order.
- A received stale copy of an own TIE raises the sequence number by one, not past the copy
  (`internal/tie/originate.go:228-230`). `CopyNarrowsGap` states the exact step, `GapCloses` what n copies achieve.
- Adjacent TIDE chunks share a boundary identity, and the receiver's range is closed at both ends, so an identity on an
  inner boundary is sent again although both sides agree: `BoundaryResent`.
- A bad-version, own or illegal header drops the neighbour in ThreeWay without leaving the state
  (`internal/lie/fsm.go:417-434`). `NeighborLostExactly` says that it happens for exactly these headers, and
  `NeighborlessNeverTimesOut` that such a machine never expires: the clean-up also forgets when the last LIE came.
- The cap of 10000 on decoded collections does not hold of the neighbour map of a Node TIE, which the decoder fills
  again for every field with identifier 2 (`internal/encoding/codec.go:1751`, `1765-1789`). `CapExceeded` gives the
  bytes of a packet that decodes to 20000 neighbours. `CapExactly` says of all bytes when a decoded packet keeps every
  cap: if and only if the identities that these bytes announce for the Node TIE the packet ends with are at most 10000,
  counted once each. `PacketBounded` gives the other caps without condition.
- The envelope's origin header is written but not parsed, so it comes back at the front of the payload;
  `EnvelopeRoundTrip` holds if and only if there is none.
- Header equality is not transitive: `HeaderEqualityNotTransitive`. It carries over exactly when the outer two lifetimes
  are within the tolerance themselves, `HeaderEqualityTransitiveExactly`. The tolerance is 400 seconds for lifetimes
  that are not negative; over all of int32 it also takes in differences that wrap round, such as 0 and the least int32,
  whose negation is itself: `HeadersEqualExactly`.
- A request carries sequence number 0. `RequestQueues` gives exactly the stored headers for which it is answered; a
  stored sequence number of 0 with a lifetime far below zero is not.
- Next-hop sets are complete only when links cost something, though what is recorded is right for free links too: a node
  that gains a hop at equal distance after it was expanded is not expanded again
  (`internal/spf/southbound.go:116-119`). `FreeLinkLosesHop` shows a run that loses one.
- The length of a prefix is decoded from a byte and never checked (`internal/encoding/codec.go:2025`). S-SPF attaches a
  prefix of any length, and disaggregation drops those whose key does not parse (`internal/spf/disagg.go:121-124`), so
  that such a prefix stays cut off where a spine misses it: `LongPrefixLost`. `NoBlackHole` and `MustDisaggregate` are
  if-and-only-ifs on this, `BrokenLinkExactly` gives the answer for every length in one fabric.
- The peers that disaggregation considers are keyed by originator; of several South Node TIEs of one originator the one
  visited last counts (`internal/spf/disagg.go:44-61`), which `Disagg.PeerTable` leaves open.

## Model

| member | source | states |
|---|---|---|
| `Prefixes.StringRoundTrip` | internal/spf/helpers.go:60-74 | StringToPrefix undoes PrefixToString exactly when the length is 0 to 32; any other length is lost |
| `Prefixes.FormatDigit` | internal/spf/helpers.go:11-20 | the digit at a position of a formatted number counts ten to the power of the digits behind it |
| `Prefixes.DottedDecimal` | internal/spf/helpers.go:11-20 | the four octets of a formatted prefix come most significant first, with dots between them, a slash and the length |
| `Prefixes.KeysAreInjective` | internal/spf/helpers.go:11-20 | two valid prefixes share a table key only if they are the same prefix |
| `Prefixes.NhgNameInjective` | internal/agent/agent.go:525-530 | distinct keys without underscore give distinct group names |
| `Prefixes.NhgNameForm` | internal/agent/agent.go:525-530 | a group name is the prefix with every slash made an underscore, between rift_ and _sdk |
| `Prefixes.KeysHaveNoUnderscore` | internal/spf/helpers.go:11-20 | no formatted prefix contains the underscore that replaces the slash |
| `RiftTypes.FindPrefixTIEs` | internal/spf/helpers.go:45-88 | collects exactly the prefix lists stored for a direction, an originator and a TIE type, in any map order |
| `RiftTypes.PrefixListsExactly` | internal/spf/helpers.go:45-88 | which entries such a list comes from: direction, originator and type as asked, prefixes under type 3, disaggregated ones under type 4 |
| `RiftTypes.NodeLookup` | internal/spf/helpers.go:22-42 | Node TIEs are found under type 2 and number 1, a link without a cost counts 1, only a flag that is set overloads |
| `Routes.MergeNextHops` | internal/spf/helpers.go:90-105 | the first list, then each hop of the second whose neighbour is new |
| `Routes.MergedExactly` | internal/spf/helpers.go:90-105 | what is added is, of each neighbour not seen before, the first hop of the second list, in the order of that list |
| `Routes.Rib.AddRoute` | internal/spf/helpers.go:107-146 | the table after one offer, and which Route object may be written: none but the equally ranked one at the prefix |
| `Routes.AddOneBest` | internal/spf/helpers.go:107-146 | whichever branch is taken the table stays best: per prefix the least (type, metric) offered and the neighbours of the offers achieving it |
| `Routes.BestIsLeast` | internal/spf/helpers.go:107-146 | in such a table no offer has a lower type, nor a lower metric within the type |
| `Routes.FoldOrderFree` | internal/spf/helpers.go:107-146 | any order and repetition of the same offers fills a table with the same ranks and neighbour sets |
| `Routes.BestTableUnique` | internal/spf/helpers.go:107-146 | the offers determine prefixes, ranks and neighbour sets |
| `Routes.AttachPrefixes` | internal/spf/southbound.go:132-142 | the nested loops leave the table best for the old offers and all listed IPv4 prefixes at base plus metric in int32 |
| `Southbound.PriorityQueue.Pop` | internal/spf/southbound.go:160-184 | removes one occurrence of an item of least distance |
| `Southbound.AdjacencyLookup` | internal/spf/southbound.go:30-34 | a lookup holding, for each adjacent neighbour, some adjacency to it |
| `Southbound.Relax` | internal/spf/southbound.go:108-119 | records, improves or merges one node and pushes it exactly when its distance fell |
| `Southbound.RelaxPotential` | internal/spf/southbound.go:108-119 | every push lowers a bounded potential, so the search ends on every input, whatever the costs |
| `Southbound.Expand` | internal/spf/southbound.go:69-120 | relaxing all listed neighbours keeps the search invariant and never raises the potential |
| `Southbound.ShortestPathTree` | internal/spf/southbound.go:36-121 | ends on every input; when no cost is negative and no path's cost reaches 2^31, nodes, distances and recorded next hops are right; when no link is free either, no next hop is missing, despite stale entries and copied next hops |
| `Graph.SupportedIsSound` | internal/spf/southbound.go:36-121 | distances that no admissible link undercuts, each backed by a path, are the shortest, and next hops backed by paths of that cost are first hops of shortest paths, free links or not |
| `Graph.SolvedIsExact` | internal/spf/southbound.go:36-121 | the local equations over all admissible links determine reachability, shortest distances and the first hops of all shortest paths |
| `SpfExact.LinkExactly` | internal/spf/southbound.go:60-104 | an admissible link in terms of the two Node TIEs: not overloaded, listed one level or more below, listed back, and for a first hop an adjacency; and its cost |
| `SpfExact.OverloadedIsTerminal` | internal/spf/southbound.go:65-69 | no path of the computation goes on from a node that says it is overloaded |
| `FreeLink.FreeLinkLosesHop` | internal/spf/southbound.go:45-119 | why costs must be positive: four nodes, one link of cost 0, and an order of pops the heap allows after which the tree misses a first hop |
| `Southbound.ComputeSouthbound` | internal/spf/southbound.go:18-150 | the table is the best-offer table of the prefixes attached to the nodes of such a tree |
| `Southbound.SouthRoutes` | internal/spf/southbound.go:123-143 | in terms of paths, for costs of at least 0: which prefixes have a route, its least total metric, and next hops that are first hops of shortest paths to the nodes achieving it; exactly these when costs are at least 1 |
| `SpfExact.AttachesExactly` | internal/spf/southbound.go:132-142 | what a node attaches, in terms of the entries of its North Prefix TIEs, the distance, and int32 sums |
| `Northbound.ValidateUplinks` | internal/spf/northbound.go:32-68 | exactly the adjacencies to a higher level whose South Node TIE lists us, with their costs |
| `SpfExact.UplinkExactly` | internal/spf/northbound.go:32-68 | an uplink in terms of the adjacency, the South Node TIE of its neighbour and our own North Node TIE |
| `Northbound.CheapestUplinks` | internal/spf/northbound.go:75-89 | the minimum cost and exactly the hops at it |
| `Northbound.ComputeNorthbound` | internal/spf/northbound.go:16-126 | empty without uplinks, otherwise the best-offer table of the default over the cheapest uplinks and all that the uplinks attach |
| `Northbound.DefaultRouteExact` | internal/spf/northbound.go:75-123 | the default route is exactly the cheapest validated uplinks if and only if no attached default undercuts them |
| `Northbound.PositiveMetricsKeepDefault` | internal/spf/northbound.go:97-123 | prefix metrics of at least 1 with sums in int32 rule undercutting out |
| `SpfExact.NorthRoutes` | internal/spf/northbound.go:97-123 | the north table but for the default, exactly: a prefix has a route if and only if a Prefix or disaggregation TIE over some uplink lists it, at the least such total, through uplinks achieving it, one for each such neighbour |
| `Disagg.CollectPeers` | internal/spf/disagg.go:38-61 | the south neighbours of each same-level originator, from one of its reflected South Node TIEs |
| `Disagg.SouthExactly` | internal/spf/disagg.go:27-33 | our south neighbours are those of the adjacencies to lower levels |
| `Disagg.PeersExactly` | internal/spf/disagg.go:38-61 | the peers are the other originators of South Node TIEs at our level, each with the neighbours one such TIE lists below that level |
| `Disagg.FindPartialNeighbors` | internal/spf/disagg.go:67-93 | the keys are exactly the south neighbours that some peer sharing one with us lacks, each with all such peers |
| `Disagg.ComputeDisaggregation` | internal/spf/disagg.go:16-138 | a prefix is in the result if and only if its key parses and its route has a next hop among our south neighbours that is missing from those of some peer with which we have a south neighbour in common; with the metric of the route |
| `SpfEngine.MergeTables` | internal/spf/spf.go:56-67 | the merged table holds the very south Route objects, unchanged, and north routes only elsewhere |
| `SpfEngine.Engine.Run` | internal/spf/spf.go:43-75 | a leaf keeps the north table; any other node holds every south route as it was, in both tables, and the north routes at all other prefixes |
| `Fabric.PeerKnown` | internal/spf/disagg.go:38-61 | in a converged fabric a spine knows exactly the leaves of every spine it shares a leaf with, by reflection |
| `Fabric.SpineRoutes` | internal/spf/southbound.go:123-143 | in a converged fabric a spine has a south route exactly for what its linked leaves attach, through such leaves only |
| `FabricExact.SpineHops` | internal/spf/southbound.go:123-143 | its metric is the least attached by a linked leaf, one link added, and its next hops are all the leaves that attach it so |
| `Fabric.MustDisaggregate` | internal/spf/disagg.go:63-130 | a prefix one spine reaches and a spine sharing a leaf with it does not is among those the first advertises for disaggregation if and only if its key parses as a prefix |
| `FabricExact.DisaggregatesExactly` | internal/spf/disagg.go:63-130 | in a converged fabric, in terms of links: a spine announces a prefix, at a metric, if and only if that is its south route, the key parses, and some spine shares a leaf with it while a next hop of the route is linked to it and not to that spine |
| `Fabric.LeafUplinks` | internal/spf/northbound.go:32-68 | in a converged fabric the validated uplinks of a leaf are exactly its spines |
| `Fabric.NoBlackHole` | internal/spf/northbound.go:97-123 | in every converged two-level fabric: if a spine of leaf m reaches a non-default prefix and a spine of m does not, m has a route for it if and only if its length is 0 to 32, and then each next hop is a spine of m that reaches it, through leaves that attach it |
| `FabricExact.LeafRoutesExactly` | internal/spf/northbound.go:97-123 | the table of a leaf, exactly, but for the default: the prefixes its spines announce, at the least metric announced and one link, through all the spines that announce it so |
| `FabricExact.WholeIsQuiet` | internal/spf/disagg.go:95-99 | where spines that share a leaf have the same leaves no spine announces anything |
| `FabricExact.WholeDefault` | internal/spf/northbound.go:70-95 | and a leaf holds the default alone, at metric 1 through all its spines, or nothing if it has none |
| `Fabric.LengthDecides` | internal/spf/helpers.go:60-74 | a key that a leaf attaches parses exactly when the length behind it is 0 to 32 |
| `FabricExists.ConvergedExists` | internal/spf/disagg.go:16-138 | every two-level fabric has a converged state, so the theorem speaks of something: its hypotheses are met together |
| `FabricExists.BrokenLinkExactly` | internal/spf/northbound.go:97-123 | two spines, two leaves, one link missing, the cut-off leaf attaching a prefix of any length: its fabric converges, and the other leaf routes the prefix, through the connected spine alone, exactly for the lengths 0 to 32 |
| `FabricExists.BrokenLinkRepaired` | internal/spf/northbound.go:97-123 | the same for a host route: the prefix goes through the connected spine alone |
| `FabricExists.LongPrefixLost` | internal/spf/disagg.go:121-124 | a prefix of length 33 that one spine reaches and the other does not is missing from the leaf's table |
| `Lsdb.TIEIDTotalOrder` | internal/tie/lsdb.go:168-184 | CompareTIEID is sign-symmetric, zero only on equal identities, and transitive |
| `Lsdb.TIEIDLexicographic` | internal/tie/lsdb.go:168-184 | the order is lexicographic: direction, originator, type, number |
| `Lsdb.HeaderOrder` | internal/tie/lsdb.go:186-201 | how the verdict on two headers and their sequence numbers bound each other |
| `Lsdb.HeaderEqualityNotTransitive` | internal/tie/lsdb.go:186-201 | three headers, each equal to the next, of which the first and last differ |
| `Lsdb.HeadersEqualExactly` | internal/tie/lsdb.go:186-201 | two headers are equal exactly when the sequence numbers are and the lifetimes differ within the tolerance, which over int32 includes differences that wrap |
| `Lsdb.HeaderNewerExactly` | internal/tie/lsdb.go:186-201 | for lifetimes that are not negative a header is newer exactly if its number is higher, or the same with over 400 seconds more to live |
| `Lsdb.HeaderEqualityTransitiveExactly` | internal/tie/lsdb.go:186-201 | given a equal to b and b equal to c, a equals c if and only if their lifetimes are within the tolerance |
| `Lsdb.SortedIDs` | internal/tie/lsdb.go:75-101 | all identities, each once, in strictly increasing order |
| `Lsdb.Database.Insert` | internal/tie/lsdb.go:50-59 | files an entry under the identity in its own header, replacing what was there, and says whether there was nothing |
| `Lsdb.Database.DecrementLifetimes` | internal/tie/lsdb.go:152-166 | every lifetime falls by delta in int32, and exactly those at or below zero are reported |
| `Scope.FloodRule` | internal/tie/scope.go:11-53 | North TIEs are flooded up; South Node TIEs and own South TIEs up, down, and sideways below the top; nothing else |
| `Scope.ListingRule` | internal/tie/scope.go:59-113 | what a TIDE lists to a lower, a higher and a level neighbour |
| `Scope.AcceptRule` | internal/tie/flood.go:636-661 | own and South Node TIEs from anyone, North TIEs from below, other South TIEs from above |
| `Scope.FloodedIsAccepted` | internal/tie/flood.go:636-661 | between levels what one node floods the other accepts, except South TIEs that are no Node TIEs going up |
| `Originate.CollectNeighbors` | internal/tie/originate.go:45-61 | the neighbour map lists exactly the neighbours of the kept adjacencies, each described by one of them |
| `FloodEngineClass.FloodEngine.FloodTIEToAll` | internal/tie/flood.go:598-606 | queues the identity on exactly the adjacencies its scope permits |
| `FloodEngineClass.FloodEngine.InsertSelfOriginated` | internal/tie/originate.go:188-217 | the new entry: content given, sequence one above an own copy or 1, full lifetime |
| `FloodEngineClass.FloodEngine.BumpOwnTIE` | internal/tie/originate.go:219-236 | raises an own entry's sequence by one with full lifetime and the same content; anything else is left alone |
| `FloodEngineClass.FloodEngine.OriginateSelfTIEs` | internal/tie/originate.go:10-186 | writes exactly the own identities of this level, Node TIEs listing exactly the current neighbours above or level, and below |
| `FloodExact.OriginatesExactly` | internal/tie/originate.go:10-217 | exactly the own Node and Prefix TIEs, south only above the leaves, each one number above our copy or 1, with a lifetime of a week; the Node TIEs list exactly the neighbours at our level or above, and those below; the Prefix TIEs the local prefixes, and the default |
| `FloodEngineClass.FloodEngine.HandleDisaggUpdate` | internal/tie/originate.go:238-282 | originates, withdraws by an empty list, or does nothing, and floods what it wrote |
| `FloodExact.DisaggExactly` | internal/tie/originate.go:238-282 | the prefixes are written and queued in scope; an empty list only where there is something to take back |
| `FloodEngineClass.FloodEngine.HandleAdjChange` | internal/tie/flood.go:171-195 | the adjacency set or dropped with empty queues, then all own TIEs written and queued |
| `FloodExact.AdjacencyExactly` | internal/tie/flood.go:171-195 | the adjacency starts with empty queues or goes; every own TIE is written for the adjacencies as they are now, and queued wherever it is in scope |
| `FloodEngineClass.FloodEngine.HandleTIE` | internal/tie/flood.go:222-303 | the whole new state for a received TIE, which FloodExact.TIEExactly spells out adjacency by adjacency |
| `FloodExact.TIEExactly` | internal/tie/flood.go:222-303 | adjacency by adjacency: news from elsewhere that is acceptable is stored, acknowledged where it came from and queued on every other adjacency in scope; news of an own TIE raises ours and queues it in scope; an older copy is answered by ours, an equal one acknowledged; nothing else changes |
| `FloodEngineClass.FloodEngine.HandleTIDE` | internal/tie/flood.go:305-378 | the whole new state for a received TIDE: each header in turn, then every unlisted entry of the range in scope |
| `FloodExact.HeaderExactly` | internal/tie/flood.go:325-360 | adjacency by adjacency, for a header of a TIDE: own TIEs written and queued in scope, a request, our newer copy queued, or the queue cleared of it |
| `FloodExact.UnlistedExactly` | internal/tie/flood.go:362-377 | beyond the headers exactly the entries between the ends of the TIDE that it does not list and that are in scope |
| `FloodEngineClass.FloodEngine.HandleTIRE` | internal/tie/flood.go:380-419 | the whole new state for a received TIRE: requests queue, matching acknowledgments clear |
| `FloodExact.TIREExactly` | internal/tie/flood.go:380-419 | which TIEs wait on the adjacency afterwards: of several headers for one the last that counts decides; nothing else changes |
| `FloodEngineClass.FloodEngine.HandleFloodPacket` | internal/tie/flood.go:207-220 | a received packet makes the step of its kind, on every adjacency name and packet; one with none of the three contents does nothing |
| `FloodEngineClass.FloodEngine.TickLifetimes` | internal/tie/flood.go:494-514 | ages every entry, drops the expired, renews and queues exactly the own ones within 3600 seconds of expiry |
| `FloodExact.SecondExactly` | internal/tie/flood.go:494-514 | a second, entry by entry: what has no lifetime left is gone, own copies with less than an hour left are one number higher with a week to live and queued in scope, all others one second older |
| `FloodEngineClass.FloodEngine.SendTIDEsToAdj` | internal/tie/flood.go:466-492 | sends the pieces of the sorted list of exactly the headers in TIDE scope |
| `FloodExact.ListingExactly` | internal/tie/flood.go:466-492 | the TIDEs of an adjacency list exactly the headers of what is stored and in TIDE scope there |
| `FloodEngineClass.FloodEngine.GenerateAndSendTIDEs` | internal/tie/flood.go:421-427 | does so once on every adjacency, changing nothing else |
| `FloodEngineClass.FloodEngine.DrainAdjQueues` | internal/tie/flood.go:523-578 | sends acknowledgments of held entries, a request for each wanted identity, and each queued TIE held, and empties the queues |
| `FloodEngineClass.FloodEngine.DrainQueues` | internal/tie/flood.go:516-521 | drains every adjacency once, in any order |
| `FloodExact.DrainSentExactly` | internal/tie/flood.go:516-597 | on every adjacency the headers of stored TIEs to acknowledge, the requests with number and lifetime 0, and the stored TIEs queued are sent, and nothing else |
| `TideChunks.BuildTIDEChunks` | internal/tie/flood.go:429-464 | the pieces tile the identity space from least to greatest, hold at most 25 headers, concatenate to the input, and on a sorted in-range list each header lies in its own piece |
| `TideChunks.PieceLimits` | internal/tie/flood.go:429-464 | 25 headers in every piece but the last, which has at most 25; the ends of the first and the last piece in numbers |
| `TideChunks.Covered` | internal/tie/flood.go:429-464 | no gap: every identity in range lies in some piece |
| `TideChunks.OverlapIsBoundary` | internal/tie/flood.go:447-455 | two pieces share at most one identity, the end of the earlier one |
| `FloodInvariants.StepKeeps` | internal/tie/flood.go:132-169 | every step of the engine keeps the state invariants, never lowers a stored sequence number, never loses an own TIE |
| `FloodInvariants.RunInvariant` | internal/tie/flood.go:132-169 | in every reachable state: entries filed under their own identity, self-originated exactly for our originator, foreign ones acceptable from some neighbour, own ones alive and own Node TIEs matching the adjacency table |
| `FloodInvariants.NoForeignNorth` | internal/tie/flood.go:636-661 | a node whose neighbours are never below it never holds another node's North TIE |
| `FloodInvariants.SeqNeverFalls` | internal/tie/flood.go:272-295 | over any stretch of a run in which an entry stays stored its sequence number never falls |
| `FloodInvariants.OwnStays` | internal/tie/flood.go:494-514 | over every run an own TIE never leaves the database and never comes within 3600 seconds of expiry at rest |
| `FloodInvariants.ReceivedNeverReplacesOwn` | internal/tie/flood.go:275-281 | over every run a received packet leaves own content as it was, or, for a TIDE, as we would originate it at that moment |
| `FloodInvariants.CopyNarrowsGap` | internal/tie/originate.go:219-236 | a newer copy of an own TIE raises ours by exactly one, keeps its content, and queues it in scope |
| `FloodInvariants.GapCloses` | internal/tie/flood.go:275-281 | over every run n copies with sequence r raise ours by n until r is reached |
| `TideRound.WholeRound` | internal/tie/flood.go:305-378 | the pieces of one list in any order: all omitted in-scope and all older-listed TIEs queued, exactly the accepted newer or absent ones requested, no other foreign TIE queued but at shared boundaries |
| `TideRound.BoundaryResent` | internal/tie/flood.go:447-455 | in cutting order every in-scope identity on an inner boundary is queued, however equal the headers |
| `Sync.RequestQueues` | internal/tie/flood.go:395-406 | exactly the stored headers for which a request with sequence 0 and lifetime 0 is answered |
| `Sync.OneRoundSuffices` | internal/tie/flood.go:305-419 | the pieces of the TIDE in any order, each once, requests and answers in any order and repeated, nothing lost: the receiver then holds every listed TIE that it accepts and did not originate and whose header a request is answered for, at the listed sequence number or later |
| `SyncRun.Synchronise` | internal/tie/flood.go:305-578 | such a round carried out by two engines from any two good states, and its outcome at the receiver: lossless rounds exist wherever there is a link |
| `Interleaved.StepQueue` | internal/tie/flood.go:132-169 | but for a drain no step of the engine takes a TIE off an adjacency's queue, unless a packet on that adjacency says that the neighbour's copy is as recent |
| `Interleaved.InterleavedRoundSuffices` | internal/tie/flood.go:305-419 | the same while the listing node takes any other steps: ageing, other neighbours' packets, origination, drains; for every listed TIE it keeps and would answer for |
| `Interleaved.OwnStaysAnswerable` | internal/tie/flood.go:494-514 | a node keeps its own TIEs through all these steps and answers for them |
| `Flooding.SpeakerHas` | internal/tie/flood.go:466-578 | whatever a step sends that shows a copy of a TIE, be it a TIE, a TIDE or an acknowledgment, shows only what the node holds |
| `Flooding.QueueKept` | internal/tie/flood.go:132-169 | but for a drain no step takes a TIE off a queue unless a packet on that adjacency shows that the neighbour holds it as recent; TIDEs included |
| `Flooding.Gained` | internal/tie/flood.go:222-303 | the only step by which a node comes to hold another node's TIE is its reception, which queues it wherever it is to be passed on |
| `Flooding.HopDelivers` | internal/tie/flood.go:222-303 | one hop: a node that comes to hold a TIE and may flood it brings it to every neighbour that may accept it, unless that neighbour has it already |
| `Flooding.FloodingReaches` | internal/tie/flood.go:132-169 | a whole fabric, all nodes taking any steps in any interleaving, links that lose and forge nothing, a drain after each reception, the TIE not running out: every node that the scope rules let the TIE reach hop by hop ends with it, in the version it started in or a later one |
| `FloodingRun.FloodingHappens` | internal/tie/flood.go:132-169 | such a fabric exists: a leaf, its spine, a TIE and its acknowledgment |
| `LieFsm.StepShrinks` | internal/lie/fsm.go:224-376 | in every state each event weighs more than all it pushes |
| `LieFsm.DrainBounded` | internal/lie/fsm.go:215-222 | the queue empties after at most as many events as its weight |
| `LieFsm.EventsPerInput` | internal/lie/fsm.go:191-208 | from rest a packet costs at most five events and a tick at most three |
| `LieMachineClass.LieMachine.ProcessPending` | internal/lie/fsm.go:406-477 | the whole new state of PROCESS_LIE: the checks in order, what each rejects and pushes |
| `LieMachineClass.LieMachine.Track` | internal/lie/fsm.go:479-520 | the whole new state of neighbour tracking, for a new, a different and the same neighbour |
| `LieMachineClass.LieMachine.CheckReflection` | internal/lie/fsm.go:522-543 | which event the reflection in a LIE raises in which state |
| `LieMachineClass.LieMachine.Enter` | internal/lie/fsm.go:378-397 | the state entered, the clean-up of OneWay, and the report with the neighbour left |
| `LieMachineClass.LieMachine.Send` | internal/lie/fsm.go:566-602 | the LIE sent, reflecting the neighbour held |
| `LieMachineClass.LieMachine.OnOneWay` | internal/lie/fsm.go:248-279 | the OneWay row of the table |
| `LieMachineClass.LieMachine.OnTwoWay` | internal/lie/fsm.go:281-314 | the TwoWay row |
| `LieMachineClass.LieMachine.OnThreeWay` | internal/lie/fsm.go:316-347 | the ThreeWay row |
| `LieMachineClass.LieMachine.OnWait` | internal/lie/fsm.go:349-376 | the MultipleNeighborsWait row |
| `LieMachineClass.LieMachine.DrainQueue` | internal/lie/fsm.go:215-222 | processes events until none is left, on every queue and in every state |
| `LieMachineClass.LieMachine.HandleLIE` | internal/lie/fsm.go:191-202 | a packet without LIE changes nothing; a LIE is held as pending and all events it leads to are processed, which from rest is what the decision table LieExact.Handled says |
| `LieMachineClass.LieMachine.OnTick` | internal/lie/fsm.go:204-208 | a second's event and all it leads to are processed, which from rest is what LieExact.Ticked says |
| `LieExact.PacketExactly` | internal/lie/fsm.go:191-543 | the whole effect of a LIE on a machine at rest, apart from the event tables: ignored while waiting; unheard, refused, a first neighbour, another sender, a changed level or address, no reflection, ours or another's, in each state: the state, the neighbour, the times, the reports and the LIE sent |
| `LieExact.SecondExactly` | internal/lie/fsm.go:204-208 | the same for a second: the LIE sent, the expiry of the neighbour, the end of a wait of 12 seconds |
| `LieInvariants.StepSound` | internal/lie/fsm.go:224-397 | every event keeps the machine sound, and OneWay leads no further than TwoWay |
| `LieInvariants.RestingFacts` | internal/lie/fsm.go:191-222 | over every run, between inputs: queue empty, OneWay without neighbour, last report naming the state |
| `LieInvariants.ReportsJustified` | internal/lie/fsm.go:281-293 | over every run each report of ThreeWay names a neighbour whose accepted LIE reflected our system and link, and OneWay is left only for TwoWay |
| `LieInvariants.NeighborConstant` | internal/lie/fsm.go:491-516 | while ThreeWay lasts a neighbour present has the system, level and address of the one at its start |
| `LieInvariants.TickExactly` | internal/lie/fsm.go:204-208 | the whole effect of a second in each state: a LIE, expiry, or the end of waiting |
| `LieInvariants.NeighborLostExactly` | internal/lie/fsm.go:416-434 | a packet leaves ThreeWay standing without a neighbour if and only if its version is wrong or its sender is ourselves or illegal |
| `LieInvariants.NeighborlessNeverTimesOut` | internal/lie/fsm.go:604-616 | over every run a machine in ThreeWay without neighbour stays so however many seconds pass |
| `Handshake.ThreeWayIsMutual` | internal/lie/fsm.go:478-543 | any number of honest machines, lossy, repeating and reordering network: at a report of ThreeWay exactly one other machine answers to the neighbour's system and link, and it had accepted a LIE that we ourselves had sent, and then sent the reflection while holding us |
| `HandshakeRun.HandshakeCompletes` | internal/lie/fsm.go:248-314 | any two machines with different legal systems and acceptable levels have a history of five inputs after which both are in ThreeWay and hold each other |
| `Wire.NumRoundTrip` | internal/encoding/codec.go:1088-1114 | a signed number of k bytes is read back as written, consuming exactly its bytes |
| `Wire.NumDigit` | internal/encoding/codec.go:40-62 | byte i of k is the digit of weight 256 to the power k - 1 - i of the two's complement: the most significant byte first |
| `Wire.ReadDigit` | internal/encoding/codec.go:1083-1114 | and on any bytes the number read has these digits |
| `Wire.FieldLayout` | internal/encoding/codec.go:84-97 | a field is its type code, its identifier with the more significant byte first, and its value; a struct ends with 0 |
| `Wire.CountLayout` | internal/encoding/codec.go:71-83 | the length of a string and the count of a list, a set or a map stand in four bytes, most significant first, after the element types |
| `Wire.Codes` | internal/encoding/codec.go:14-27 | the type codes as numbers |
| `Wire.FieldHeaderRead` | internal/encoding/codec.go:1147-1157 | what a reader takes from three bytes: code and identifier |
| `Wire.TextReadExactly` | internal/encoding/codec.go:1121-1145 | on any bytes a string is read exactly if its length is 0 to 1 MiB and as many bytes follow |
| `Wire.TextRoundTrip` | internal/encoding/codec.go:1121-1145 | a string of at most 1 MiB is read back, consuming exactly its bytes |
| `Wire.SkipExactly` | internal/encoding/codec.go:1159-1229 | skip consumes exactly one well-formed value of any type, nested to any depth |
| `Wire.UnknownTypeFails` | internal/encoding/codec.go:1159-1229 | a type code that is none of the ten is an error |
| `Schema.TablesAgree` | internal/encoding/codec.go:98-1070 | every field the encoder writes the decoder reads under the same identifier as the same kind, and none is written twice |
| `Schema.KnownIsWritten` | internal/encoding/codec.go:1231-2259 | every identifier the decoder knows is one the encoder can write |
| `Schema.Variants` | internal/encoding/codec.go:1303-1339 | which identifier of a packet, a TIE and a prefix stands for which variant |
| `CodecEncoder.PacketSignatures` | internal/encoding/codec.go:98-405 | identifiers and type codes of packets and LIEs as numbers, and when each field is written |
| `CodecEncoder.TieSignatures` | internal/encoding/codec.go:407-622 | the same for TIE headers and what lists them |
| `CodecEncoder.NodeSignatures` | internal/encoding/codec.go:624-900 | the same for Node TIEs |
| `CodecEncoder.PrefixSignatures` | internal/encoding/codec.go:902-1070 | the same for prefixes and keys |
| `CodecRoundTrip.WrittenWhen` | internal/encoding/codec.go:98-1070 | a field is written if it is set and, where emptiness counts as unset, not empty |
| `Codec.Defaults` | internal/encoding/codec.go:1341-1346 | what a record starts with before any field is read, and the caps, as numbers |
| `Codec.CountExactly` | internal/encoding/codec.go:1098-1109 | a count is accepted exactly from 0 to 10000 |
| `Codec.BoolRead` | internal/encoding/codec.go:1116-1119 | a boolean is one byte, true unless it is 0 |
| `Codec.Decodes` | internal/encoding/codec.go:1231-2259 | on the bytes of a fitting term the decoder gives the term's meaning and consumes exactly these bytes |
| `CodecMachine.Decoder.SkipValue` | internal/encoding/codec.go:1159-1229 | the recursive skip with its loops, on arbitrary bytes: the result of Skip and what is left, and it ends |
| `CodecMachine.Decoder.DecodeStruct` | internal/encoding/codec.go:1260-1301 | the loop of every struct decoder, on arbitrary bytes: known identifiers by kind, others skipped, stop ends |
| `CodecMachine.Decoder.DecodeEntries` | internal/encoding/codec.go:1765-1789 | the loop over map entries, into the map already there |
| `CodecMachine.Decoder.DecodeProtocolPacket` | internal/encoding/codec.go:1231-1258 | on arbitrary bytes it ends with an error or the packet DecodePacket gives |
| `CodecEncoder.Encoder.EncodeStruct` | internal/encoding/codec.go:98-1070 | writes the bytes of a term that encodes the record, or fails exactly when a union in it that needs a variant has none |
| `CodecEncoder.Encoder.WriteFieldHeader` | internal/encoding/codec.go:87-92 | writes the code and then the identifier, the more significant byte first |
| `CodecEncoder.Encoder.EncodeMap` | internal/encoding/codec.go:634-657 | count, then every key once with its value; the keys of the neighbour map in ascending order |
| `CodecEncoder.Encoder.EncodeProtocolPacket` | internal/encoding/codec.go:98-115 | the same for a whole packet, whose bytes begin with 12, 0, 1: a struct under identifier 1 |
| `CodecRoundTrip.PacketRoundTrip` | internal/encoding/codec.go:1231-1258 | any encoding of a well-formed packet, in any order of its sets and maps, decodes to the packet and leaves the rest |
| `CodecLimits.UnknownFieldsTransparent` | internal/encoding/codec.go:1231-1258 | packets that differ only in unknown fields, in any struct and of any type, decode alike |
| `CodecLimits.PacketBounded` | internal/encoding/codec.go:1098-1109 | on arbitrary bytes every collection but neighbour maps is within 10000 and every string within 1 MiB |
| `CodecLimits.CapExactly` | internal/encoding/codec.go:1231-2259 | on arbitrary bytes that decode: every collection is within 10000 and every string within 1 MiB if and only if the identities announced for the Node TIE the packet ends with are at most 10000 |
| `CodecLimits.NeighboursBounded` | internal/encoding/codec.go:1765-1789 | on arbitrary bytes a Node TIE decodes to neighbours for exactly the identities announced, so it keeps the cap if and only if these are at most 10000; n neighbour fields announce at most 10000 n |
| `CodecLimits.CapExceeded` | internal/encoding/codec.go:1765-1789 | the bytes of a packet that decodes to 20000 neighbours |
| `Envelope.EnvelopeDecodes` | internal/encoding/envelope.go:105-178 | decoding an encoded envelope gives every field back, with the origin header at the front of the payload |
| `Envelope.EnvelopeLayout` | internal/encoding/envelope.go:36-78 | byte by byte: A1 F7, the packet number, version 8, the key, no fingerprint, the nonces and the lifetime, each at its place |
| `Envelope.OriginLayout` | internal/encoding/envelope.go:80-98 | the origin header: key, length of the fingerprint, the fingerprint, and then the payload |
| `Envelope.DecodesExactly` | internal/encoding/envelope.go:105-178 | on any bytes decoding succeeds exactly if they start with A1 F7 and are long enough for the fields and the fingerprint announced, and gives the numbers at their places and all the rest as payload |
| `Envelope.EnvelopeRoundTrip` | internal/encoding/envelope.go:36-178 | the round trip holds if and only if there is no origin header |
| `Envelope.PacketThroughEnvelope` | internal/encoding/envelope.go:36-178 | any encoding of a well-formed packet sent through an envelope without origin header comes back as the packet |
| `CodecThrough.EveryPacketTravels` | internal/encoding/codec.go:98-1070 | every well-formed packet has an encoding, and every encoding of it decodes to it |
| `CodecThrough.ConformsEncodable` | internal/encoding/codec.go:98-1070 | a well-formed value is what the encoder asks for, and no union to be written in it misses a variant |
| `CodecThrough.EncodeThenDecode` | internal/encoding/codec.go:98-1258 | the encoder writes every well-formed packet without error, and the decoder gives it back and leaves nothing |
| `CodecThrough.SendThenReceive` | internal/encoding/envelope.go:36-178 | the same through an envelope without origin header, whose fields come back too |
| `Envelope.Stream.WriteEnvelope` | internal/encoding/envelope.go:36-103 | the bytes written, field by field |
| `Envelope.Stream.ReadEnvelope` | internal/encoding/envelope.go:105-178 | what is read from arbitrary bytes, or an error |
| `FibSync.BetweenNeverDangles` | internal/agent/agent.go:613-634 | a state between two settings has no route without its group |
| `FibSync.FormattedKeys` | internal/agent/agent.go:525-530 | tables keyed by formatted prefixes meet what a sync needs for distinct group names |
| `FibSync.DesiredExactly` | internal/agent/agent.go:555-577 | a table becomes one group for each prefix with next hops, named after it, with exactly the addresses of these next hops in order, and the metric as uint32 |
| `FibSync.InstalledInStep` | internal/agent/agent.go:555-638 | tables that match the record hold exactly the prefixes of the new table with next hops, each with its own group of exactly their addresses |
| `FibSync.PlannedExactly` | internal/agent/agent.go:579-594 | a plan lists every route with its group and metric, and an update for exactly the groups whose prefix is new or whose addresses differ, in order |
| `FibSync.Agent.Plan` | internal/agent/agent.go:555-594 | the routes with next hops, one entry each with its metric as uint32, and for every prefix the addresses of its next hops in order; an update for exactly the groups that are new or changed |
| `FibSync.Agent.SyncRoutes` | internal/agent/agent.go:546-638 | from tables that match the record: they end with a route for exactly the prefixes of the new table that have next hops, each with a group of exactly their addresses in order, and at every call in between each route has its own group with its addresses from before or after |
| `FibSync.Agent.WithdrawAllRoutes` | internal/agent/agent.go:640-664 | empties both tables, routes before groups |

## Left out

- `internal/transport`, `internal/ndk`, configuration, telemetry, logging: plumbing. The forwarding tables behind the
  NDK are two maps with the sync-window rule of `internal/agent/agent.go:546-549`, every call succeeding.
- Goroutines, channels and locks: each engine takes one step at a time. As written `tickLifetimes` calls `bumpOwnTIE`
  inside `ForEachSorted`, which asks for the write lock under a held read lock (`internal/tie/flood.go:507-513`,
  `internal/tie/lsdb.go:54`, `internal/tie/lsdb.go:90`); the model takes the step that is meant.
- A full send channel drops packets; the synchronisation theorem is about a round without loss.
- Aliasing of a packet in flight with the live database entry that a later bump changes, and of snapshots with shared
  elements: packets are values.
- Sequence numbers are unbounded, where the code has int64.
- container/heap: `Southbound.PriorityQueue` is a list whose Pop removes a least item by a linear scan.
- Southbound.ShortestPathTree: with a negative cost, or a path through distinct nodes, closed at most at its end, whose
  cost reaches 2^31, only termination and what `Recorded` says are stated. With a free link completeness of the next
  hops can fail, by `FreeLinkLosesHop`; for which topologies with free links it still holds is not characterised, it
  depends on the order in which equally near nodes are popped.
- Fabric.NoBlackHole: convergence is a hypothesis, that every node holds what flooding carries to it and has computed
  from that. `ConvergedExists` shows that every fabric has such a state, and `FloodingReaches` that runs of the flood
  engines bring every TIE where it is held there; that they bring it nowhere else, and that the nodes then compute, is
  not proved.
- Flooding.FloodingReaches: links lose nothing; with losses it takes the TIDE rounds of `Interleaved`. The version held
  at the end may be a later one of the originator.
- FloodEngineClass.FloodEngine.OriginateSelfTIEs: Node TIEs without their constant capabilities and the node's name; the
  one link pair the code writes for a neighbour is there.
- Interleaved.InterleavedRoundSuffices: the asking node takes in any packets in between but does not age its database.
- Northbound.ComputeNorthbound: the fields of a prefix other than prefix, metric and the loopback flag take no part.
- Foreign TIEs: the receiver counts down the origination lifetime, so nothing is claimed about their age.
- CodecEncoder.Encoder.EncodeStruct: the encoders of the single structs are one routine over the table of fields, not a
  function each; the text of the error is not modelled.
- CodecMachine.Decoder.DecodeStruct: the decoders of the single structs are one loop over the table of fields, not a
  function each; which error is reported and what was read before it are not modelled.
- IPv6 prefixes in route computation, security fingerprints, zero-touch provisioning, negative disaggregation: absent
  or inert in the code except as codec fields.
- Conformance to Table 3 of RFC 9692 and to its envelope layout: the model states what the code decides.
- Getters, snapshots, string conversions of states and events, `Len`, `HeadersSorted`: easy members.
