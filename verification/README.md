# A verified model of the MongoDB core driver

A Dafny 4.11 model of the parts of the driver in which state, order and arithmetic interact, with the properties its
documentation and the MongoDB specifications promise for them. `dafny verify dfyconfig.toml` checks everything.

Code that changes things step by step is a class or a method with loops (`Framing.Connection`, `Replies.BinMsg`,
`TopologyUpdate`, `PoolObject.ConnectionPool`, `Cursors.Cursor`, `Sessions`, `WithTransactions`, `RetryableWrites`,
`Cluster.UnifiedTopology`, `ReplicaSetState`, `Picking`). Its methods are proved equal to functions on values (or, for
`withTransaction`, tied to a story of its attempts), and the properties are lemmas about those functions: invariants over
every run, the effect of every operation, and references written independently of the code (a length-prefix splitter, a
request decoder, a list of documents, a ledger of operations, the picture of a deployment address by address, the
selection rules server by server).

| group | modules |
|---|---|
| lists, remainders | `Lists`, `Rounds` |
| bytes, framing and codecs | `Bytes`, `Framing`, `FramingProofs`, `Codec`, `Replies` |
| server discovery and selection | `Order`, `Sdam`, `SdamProofs`, `SdamFailures`, `SdamEffects`, `TopologyUpdate`, `Selection`, `Cluster` |
| connection pool | `Pools`, `PoolProofs`, `PoolFailures`, `PoolRuns`, `PoolEffects`, `PoolObject` |
| cursors | `Cursors`, `CursorProofs`, `CursorEffects` |
| sessions, transactions, retryable writes | `Transactions`, `TransactionProofs`, `TransactionEffects`, `Sessions`, `WithTransactions`, `RetryableWrites` |
| legacy topologies | `Legacy`, `LegacyProofs`, `LegacyEffects`, `LegacyFailures`, `ReplicaSetState`, `Picking` |

What the environment decides is a parameter: socket chunks, whether a socket write fails, server answers, clock
readings, the user's function in `withTransaction`, the compressor. A document is any byte string whose first four
bytes are its length, at least five. An election id is the sequence of its `$oid` code units. Exceptions that the code
raises by accident are results (`Thrown`, `None`, `NothingToCompare`), never preconditions.

## Where the code departs from its documentation or a specification

Each is modelled as the code has it, with a lemma that says exactly when it matters.

- A chunk that brings a held stub to at most four bytes is lost, and a message of exactly `maxBsonMessageSize` is handed
  over incomplete (`FramingProofs.FramingIsExact`, `SecondByteIsLost`, `MaximalMessageIsTruncated`).
- An exception in the processing of a message leaves the socket listener and takes the rest of the chunk along; every
  message shorter than a header raises one (`FramingProofs.FramingIsExact`, `ExceptionLosesTheRest`,
  `ShortMessageLosesTheNext`).
- An OP_MSG checksum is read as more sections (`Replies.ChecksumIsReadAsSections`).
- A primary is stale if either of its two ids is behind; the specification compares them in order
  (`SdamProofs.StalenessDiffers`). With an election id but no set version held the highest election id can be lowered
  (`SdamFailures.ElectionLowered`, reached from a seed list in `LoweringRun`).
- The rules for a primary run twice when a set gains one; in one case the second run demotes it
  (`SdamProofs.SecondPassExact`, reached from a seed list in `SdamFailures.DemotionRun`).
- A server that cannot be reached is dropped from a deployment of unknown type and from a replica set without primary;
  the specification keeps it. A lone seed that cannot be reached at first leaves none, and no answer counts ever again
  (`SdamEffects.UpdatedExact`, `SilentSeedIsDropped`, `Cluster.GivenUpForGood`).
- The session timeout forgets a data-bearing server without one if another follows (`SdamProofs.TimeoutExact`).
- Latency is measured over all servers before secondaries are singled out, and a server not heard from counts as
  answering in no time (`Selection.SecondaryFindsNothing`, `UnansweredServerHidesSecondaries`).
- An empty replica set without a primary makes a staleness bound raise a TypeError (`Cluster.NothingToCompareExact`).
- A session's idle time forgets whole hours (`Sessions.HoursForgotten`, `TimedOutExact`).
- A refused `startTransaction` and a retryable write that is not sent still take a transaction number; a commit repeated
  after that names a transaction the server never saw (`TransactionProofs.RecommitExact`).
- After the initial query was sent and failed, every call of `next` raises a TypeError, because the cursor id it compares
  with zero is still null, until the cursor is killed or rewound (`CursorProofs.ThrownExact`).
- A failed socket write leaves the operation both queued and in flight, so its callback can be called twice
  (`PoolFailures.ExecuteExact`, `CalledTwice`; from a new pool in `PoolRuns.CalledTwiceRun`).
- Flushing monitoring operations, searching work items and moving proxies step over the neighbour of what they take out,
  which leaves one behind exactly when two stand next to each other (`PoolFailures.FlushExact`, `MatchExact`,
  `Picking.TakenOutExact`); two monitoring operations written in a row do (`PoolFailures.TwoMonitoringWrites`).
- A forced destroy never answers what is in flight (`PoolFailures.ForcedExact`).
- The legacy state can keep typing a former primary as one, which later raises a TypeError or unseats another primary
  (`LegacyProofs.OneThroneExact`, `ThrownExact`, `LeftThroneUnseats`); a primary that reports another name for itself
  loses its entry (`EntryLostExact`, `ClaimsThrowWithoutEntry`). `LegacyFailures` reaches each of them from a new state.
- The legacy tag filter lists a server once per matching tag set, so it is picked as often (`Picking.TagSetsCount`,
  `NearestIsFair`); the
  window of mongos proxies is measured from disconnected proxies too (`Picking.DisconnectedProxyExact`).

## Model

| member | source | states |
|---|---|---|
| Bytes.Int32RoundTrip | lib/connection/commands.js:168-200 | the four bytes an encoder stores by shifts read back as the low 32 bits, so as the number itself exactly when it fits |
| Framing.OutcomeCut | lib/connection/connection.js:556-567 | reading a whole message and more equals emitting the message and then reading the rest as if it had arrived alone |
| Framing.OutcomeMerge | lib/connection/connection.js:456-470 | a held stub followed by bytes that make it longer than four is read as one |
| Framing.Connection.constructor | lib/connection/connection.js:71-136 | a new connection holds nothing |
| Framing.Connection.Emit | lib/connection/connection.js:443-451 | the state is cleared before the message is processed; the exceptions that escape are exactly those of processing |
| Framing.Connection.ContinueMessage | lib/connection/connection.js:424-452 | bytes for a partly buffered message complete it or extend the buffer, keeping what was held as a prefix |
| Framing.Connection.StartMessage | lib/connection/connection.js:482-575 | the five ways a message can start: refused, partly there, truncated at the maximal size, whole, or a new stub |
| Framing.Connection.DataHandler | lib/connection/connection.js:420-580 | the handler terminates on every chunk and turns the held bytes and the chunk into the events and held bytes of `Receive` |
| FramingProofs.MessagesSplit | lib/connection/connection.js:420-580 | the length-prefix reference recognises every part of a stream of messages and splits the whole into exactly them |
| FramingProofs.SplitResumes | lib/connection/connection.js:456-470 | the reference can be resumed from its pending bytes at any cut |
| FramingProofs.SplitConserves | lib/connection/connection.js:420-580 | emitted messages followed by pending bytes are the bytes received |
| FramingProofs.ParseIsSplit | lib/connection/connection.js:420-580 | on any stream of correctly prefixed messages the code emits and holds what the reference does if and only if no maximal message is pending and no message raises an exception |
| FramingProofs.ChunkIsExact | lib/connection/connection.js:456-480 | for one chunk: code and reference still agree if and only if the chunk is kept |
| FramingProofs.FramingIsExact | lib/connection/connection.js:420-580 | chunk invariance: after every chunk of any cut of any stream of correctly prefixed messages, emitted messages and held bytes are those of the reference if and only if every chunk is kept: no dropped stub, no truncated maximal message, no exception |
| FramingProofs.MessagesAreDelivered | lib/connection/connection.js:420-580 | any list of messages comes out whole, in order and with nothing left over, however it is cut into kept chunks |
| FramingProofs.SmallMessagesKept | lib/connection/connection.js:456-480 | with messages below the maximal size a chunk is lost by the stub rule or an exception only; if no message raises one, by the stub rule only |
| FramingProofs.SecondByteIsLost | lib/connection/connection.js:471-479 | a byte arriving on a held byte vanishes |
| FramingProofs.ChunkVanishesExact | lib/connection/connection.js:456-480 | whatever is held, a chunk vanishes if and only if it finds a stub and brings it to at most four bytes |
| FramingProofs.ExceptionLosesTheRest | lib/connection/connection.js:443-451 | a message whose processing raises an exception is the last thing its chunk produces |
| FramingProofs.ShortMessageLosesTheNext | lib/wireprotocol/shared.js:45-52 | a message of 5 to 15 bytes raises one in the header parser, so the message after it is lost |
| FramingProofs.MaximalMessageIsTruncated | lib/connection/connection.js:502-567 | a message of the maximal size is emitted as soon as its length is known, without the rest of it |
| FramingProofs.MalformedIsRejected | lib/connection/connection.js:482-575 | bytes that follow whole messages and announce a length of at most four or above the maximum are a parse error after those messages, and nothing is kept |
| FramingProofs.MalformedChunk | lib/connection/connection.js:420-580 | the same for a chunk arriving on a connection that holds the start of those bytes |
| FramingProofs.PrefixedSplit | lib/wireprotocol/shared.js:45-52 | messages are told apart by their length prefix alone, whatever they contain |
| Codec.Write32 | lib/connection/commands.js:168-200 | four bytes at an index become the number's, the rest of the buffer before and after is untouched |
| Codec.WriteCString | lib/connection/commands.js:202-204 | the namespace and one zero byte are written, the rest of the buffer before and after is untouched |
| Codec.QueryToBin | lib/connection/commands.js:90-222 | the buffers of a query concatenate to its encoding, length field included |
| Codec.GetMoreToBin | lib/connection/commands.js:242-316 | the same for a getMore with its 64-bit cursor id |
| Codec.WriteCursors | lib/connection/commands.js:378-394 | the loop writes every cursor id, low half first, and touches nothing before its index |
| Codec.KillCursorToBin | lib/connection/commands.js:327-398 | the same for any list of cursor ids |
| Codec.MsgToBin | lib/connection/msg.js:77-121 | an OP_MSG is its encoding, or is refused exactly when a number does not fit |
| Codec.QueryRoundTrip | lib/connection/commands.js:90-222 | the reference decoder returns the query exactly when every field fits |
| Codec.GetMoreRoundTrip | lib/connection/commands.js:242-316 | the reference decoder returns the getMore exactly when every field fits |
| Codec.KillCursorRoundTrip | lib/connection/commands.js:327-398 | the reference decoder returns the cursor ids exactly when every one has 64 bits |
| Codec.MsgRoundTrip | lib/connection/msg.js:77-121 | the reference decoder returns flags and command |
| Codec.RoundTrip | lib/connection/commands.js:90-398 | a server reads back the request that was sent, id and opcode included, if and only if every part of it fits its field |
| Replies.Response.constructor | lib/connection/commands.js:400-432 | the fields of an OP_REPLY are read from their places |
| Replies.Response.Parse | lib/connection/commands.js:438-500 | parsing collects exactly the documents that follow the header, as many as the reply announces |
| Replies.DocumentsRead | lib/connection/commands.js:468-487 | concatenated documents are read back as the same list, from any index |
| Replies.ReplyRoundTrip | lib/connection/commands.js:400-500 | every document of a reply is read back, and every number that fits |
| Replies.BinMsg.constructor | lib/connection/msg.js:137-162 | flags are read and parsing starts after them |
| Replies.BinMsg.ParseSection | lib/connection/msg.js:193-204 | one turn consumes a document section, or steps over one byte |
| Replies.BinMsg.Parse | lib/connection/msg.js:168-204 | parsing collects the documents of `SectionsOf` and throws exactly when it runs off the end |
| Replies.SectionsRead | lib/connection/msg.js:193-204 | any list of document sections is read back in order, whatever follows |
| Replies.MsgRead | lib/connection/msg.js:168-204 | `Msg.toBin` followed by `BinMsg.parse` gives back the flags and the document |
| Replies.ChecksumIsReadAsSections | lib/connection/msg.js:193-204 | with a checksum appended the message parses if and only if none of its four bytes is zero |
| Replies.ThrowsWhenSynchronous | lib/connection/connection.js:360-418 | the framing loop sees an exception of processing exactly when it is raised before the decompressor answers |
| Replies.ExceptionExact | lib/connection/connection.js:360-418 | exactly which messages raise an exception: too short for their header, for OP_MSG flags or for the fields of a reply, or announcing a negative number of documents, compressed or not |
| Replies.SerializeCommand | lib/connection/pool.js:771-809 | a command is wrapped as OP_COMPRESSED, left alone if it may not be compressed, and refused if compression fails |
| Replies.CompressionRoundTrip | lib/connection/connection.js:360-418 | for any compressor its decompressor undoes, a wrapped message passes the length check and is delivered with its opcode, request id and body |
| Replies.CompressedRequest | lib/connection/pool.js:771-809 | a server that unwraps OP_COMPRESSED gets back exactly the request asked for, id included, if and only if it fits its fields |
| Replies.RequestsAreFramed | lib/wireprotocol/shared.js:45-52 | requests written one after another are told apart and each header yields its own length, id and opcode |
| Order.Transitive | lib/topologies/replset_state.js:1004-1032 | the order of object ids is transitive |
| Order.Total | lib/topologies/replset_state.js:1004-1032 | any two ids are equal or ordered |
| Order.DecidedAt | lib/topologies/replset_state.js:1020-1032 | the first difference decides, else the shorter id comes first |
| Order.CompareObjectIds | lib/topologies/replset_state.js:1004-1032 | the loop returns -1, 0 or 1 exactly as the ids are below, equal or above |
| Sdam.OtherPrimary | lib/sdam/topology_description.js:301-312 | the demotion loop's search: a primary under another address, or none if there is none |
| Sdam.AcceptedServers | lib/sdam/topology_description.js:301-328 | after an accepted primary the addresses kept are exactly the ones it lists; known ones stay, new ones are blank |
| SdamProofs.DemoteKeyed | lib/sdam/topology_description.js:301-312 | demoting the first other primary leaves none but the reporting server, because there is at most one other |
| SdamProofs.AcceptedKeyed | lib/sdam/topology_description.js:301-328 | an accepted primary is the only one left if it lists itself, else there is none |
| SdamProofs.PrimaryKeyed | lib/sdam/topology_description.js:263-329 | one application of the primary's rules yields a consistent replica set |
| SdamProofs.UpdatedKeepsInv | lib/sdam/topology_description.js:101-225 | one answer keeps the invariant (type with primary if and only if exactly one server is primary, keys are addresses, sharded holds mongos and unknown only), raises no TypeError, and never leaves a family of types |
| SdamProofs.RunsKeepInv | lib/sdam/topology_description.js:101-225 | the same in every run from a seed list, for descriptions typed as ServerDescription types them |
| SdamProofs.PrimaryElection | lib/sdam/topology_description.js:276-299 | a primary's answer moves set version and election id forward only, and the believed primary holds the highest id |
| SdamProofs.UpdatedElection | lib/sdam/topology_description.js:101-329 | the same for a whole update, both passes included |
| SdamProofs.RunsAdvance | lib/sdam/topology_description.js:101-329 | between any two points of a run the set name stays and neither maximum goes back |
| SdamProofs.SecondPassExact | lib/sdam/topology_description.js:157-211 | the second application changes nothing if and only if it is not the first election id with a set version below the highest seen; in that case it demotes the server |
| SdamProofs.StalenessDiffers | lib/sdam/topology_description.js:276-289 | the code rejects every primary the specification rejects and, exactly, those with a newer set version and an older election id |
| SdamFailures.ElectionLowered | lib/sdam/topology_description.js:101-329 | an update, both passes included, takes name, set version or election id back if and only if a primary of the set reports both ids while an election id but no set version is held, and its id is older |
| SdamFailures.LoweringRun | lib/sdam/topology_description.js:276-299 | a run from a seed list in which the election id goes back |
| SdamFailures.GainedOrDemoted | lib/sdam/topology_description.js:157-211 | an accepted primary that lists itself gives the set a primary, or is demoted by the second pass, by its exact guard |
| SdamFailures.DemotionRun | lib/sdam/topology_description.js:157-211 | a run from a seed list whose last update both accepts and demotes the primary |
| SdamProofs.TimeoutShape | lib/sdam/topology_description.js:88-93 | the fold has a result exactly when the last data-bearing server has one, and is the minimum if none is missing |
| SdamProofs.TimeoutExact | lib/sdam/topology_description.js:84-93 | the fold meets the sessions specification if and only if no timeout is missing or the last one is |
| SdamEffects.UpdatedExact | lib/sdam/topology_description.js:101-376 | after any answer in any deployment: the type, and for every address whether a server is held and as what, by a reference that knows no order of servers and no passes (who is kept, dropped, blanked or discovered for each type of answer) |
| SdamEffects.MaximaExact | lib/sdam/topology_description.js:263-299 | the name is the first reported; only a believed primary raises the maxima, the set version to a higher one, the election id together with a set version; a set version of zero is forgotten |
| SdamEffects.SingleStays | lib/sdam/topology_description.js:129-141 | a single server stays single whatever it answers |
| SdamEffects.ThrowsExact | lib/sdam/topology_description.js:331-334 | in any state, an update raises the TypeError if and only if a member reports to a set with a primary but no name |
| SdamEffects.CompatibleExact | lib/sdam/topology_description.js:63-80 | compatible if and only if every server heard from speaks a wire version from 2 to 8 |
| SdamEffects.CommonIsLeast | lib/sdam/topology_description.js:118-124 | over any run from a seed list the common wire version is the least any answer reported, zero aside |
| SdamEffects.TypeOfRun | lib/sdam/topology_description.js:143-155 | over any run from an unknown seed list: unknown while only standalones have answered, sharded if and only if the first other answer is a mongos's, else a replica set, for good |
| SdamEffects.SilentSeedIsDropped | lib/sdam/topology_description.js:157-160 | a deployment of one seed that does not answer at first is left without any server |
| TopologyUpdate.ServerTable.DemoteOther | lib/sdam/topology_description.js:301-312 | the loop resets the first other primary and stops |
| TopologyUpdate.ServerTable.AddUnknown | lib/sdam/topology_description.js:314-319 | the loop adds a blank server for every unknown host, in order |
| TopologyUpdate.ServerTable.KeepOnly | lib/sdam/topology_description.js:321-326 | the loop drops every address not listed |
| TopologyUpdate.ServerTable.HasPrimary | lib/sdam/topology_description.js:368-376 | the search returns the type that says whether a primary is held |
| TopologyUpdate.UpdateRsFromPrimary | lib/sdam/topology_description.js:263-329 | the in-place rules compute `FromPrimary` |
| TopologyUpdate.UpdateRsWithPrimaryFromMember | lib/sdam/topology_description.js:331-344 | the in-place rules for a member of a set with a primary, with the TypeError exactly when no set name is held |
| TopologyUpdate.UpdateRsNoPrimaryFromMember | lib/sdam/topology_description.js:346-366 | the in-place rules for a member of a set without a primary |
| TopologyUpdate.NewTopology | lib/sdam/topology_description.js:33-94 | the two passes compute compatibility of all servers and the session timeout |
| TopologyUpdate.Update | lib/sdam/topology_description.js:101-225 | the method computes `Updated`, whose later branches see the type earlier ones set |
| Selection.Newest | lib/sdam/server_selectors.js:61 | the fold finds a server written last |
| Selection.WindowExact | lib/sdam/server_selectors.js:133-145 | the window holds exactly the servers within the threshold of every server given, and is empty only for none |
| Selection.FirstMatchingExact | lib/sdam/server_selectors.js:101-124 | the servers kept are those of the first tag set that any server matches |
| Selection.StalenessExact | lib/sdam/server_selectors.js:29-61 | which staleness bounds are refused and why: below a heartbeat and ten seconds, below ninety seconds, or with no server to compare with |
| Selection.RecentExact | lib/sdam/server_selectors.js:29-73 | the servers kept are those within the staleness bound of the primary, or of every server without one |
| Selection.ReducedExact | lib/sdam/server_selectors.js:190-215 | staleness, tags and latency in a row keep exactly the recent servers of the first matched tag set within the threshold of every other such server |
| Selection.SelectExact | lib/sdam/server_selectors.js:169-239 | for each of the five modes: which servers are chosen, when a preferred mode falls back, and when and how it fails |
| Selection.MongosExact | lib/sdam/server_selectors.js:188-193 | single and sharded deployments: the known servers within the threshold of each other |
| Selection.WritableExact | lib/sdam/server_selectors.js:14-18 | writes go to exactly the primaries, standalones and mongos within the threshold of every other such server |
| Selection.SecondaryFindsNothing | lib/sdam/server_selectors.js:199-206 | secondary mode chooses nothing if and only if every secondary is beyond the threshold of some server of any kind |
| Selection.UnansweredServerHidesSecondaries | lib/sdam/server_selectors.js:133-145 | a server not heard from hides every secondary slower than the threshold |
| Selection.SelectionFilters | lib/sdam/server_selectors.js:169-239 | whatever the mode, the result is the given list without some of its servers, in order |
| Cluster.TrackedExact | lib/sdam/topology.js:814-842 | after updateServers there is a server for every described address and no other, the answering one holds the answer, the others are untouched |
| Cluster.RunsKeepTrack | lib/sdam/topology.js:388-437 | in every run from any seed list nothing is thrown, and whenever the description is compatible the servers are the described ones |
| Cluster.AnswerIsFollowed | lib/sdam/topology.js:388-437 | a described server's answer changes the description as the reference says and the servers with it, unless incompatible; anybody else's changes nothing |
| Cluster.GivenUpForGood | lib/sdam/topology.js:388-391 | once no server is described, no answer ever changes anything |
| Cluster.SelectionIsBacked | lib/sdam/topology.js:724-746 | in every run with a compatible description the lookup of a chosen server is never undefined |
| Cluster.PrimaryIsFound | lib/sdam/server_selectors.js:47-59 | with a primary, staleness never fails for want of one, primary modes choose exactly it and secondaryPreferred chooses something |
| Cluster.NothingToCompareExact | lib/sdam/server_selectors.js:60-61 | the unseeded reduce fails if and only if the set is empty, without primary, and the staleness bound valid |
| Cluster.UnifiedTopology.constructor | lib/sdam/topology.js:806-812 | a server is connected for every description |
| Cluster.UnifiedTopology.UpdateServers | lib/sdam/topology.js:814-842 | the loops compute `Tracked` |
| Cluster.UnifiedTopology.ServerUpdateHandler | lib/sdam/topology.js:388-437 | unknown addresses are ignored, an incompatible description leaves the servers alone, otherwise both are updated |
| Cluster.UnifiedTopology.SelectServers | lib/sdam/topology.js:724-746 | one attempt returns the selector's failure or the lookups of its choice, in order |
| PoolProofs.FlushSplits | lib/connection/pool.js:1027-1037 | flushing only splits the queue, losing and doubling nothing |
| PoolProofs.KeptOrdinary | lib/connection/pool.js:1027-1037 | flushing keeps every ordinary operation in order |
| PoolProofs.MatchSplits | lib/connection/pool.js:358-366 | the search of work items only splits them |
| PoolProofs.TurnKeeps | lib/connection/pool.js:1057-1196 | one turn of the execution loop keeps ownership and the ledger and sends at most the operation at the front |
| Pools.Turn | lib/connection/pool.js:1057-1196 | a turn that does not end the loop shortens the queue |
| PoolProofs.LoopKeeps | lib/connection/pool.js:1039-1200 | the loop ends, sends a prefix of the queue in order, loses nothing and does not outgrow the pool's size |
| PoolProofs.ReplyKeeps | lib/connection/pool.js:353-459 | a reply keeps ownership and the ledger, work moving to the ended operations |
| PoolProofs.FailedConnection | lib/connection/pool.js:228-240 | a failure ends exactly the operations in flight on the connection, each with its callback |
| PoolProofs.FailKeeps | lib/connection/pool.js:228-281 | the whole failure handler keeps ownership and the ledger |
| PoolProofs.ForceDestroyKeeps | lib/connection/pool.js:690-705 | a forced destroy keeps ownership and the ledger |
| PoolProofs.WriteKeeps | lib/connection/pool.js:816-950 | a write enters the ledger once, or is refused |
| PoolProofs.WriteOrder | lib/connection/pool.js:935-941 | an ordinary operation is appended to the order of sending, a monitoring one does not change it |
| PoolProofs.StepKeeps | lib/connection/pool.js:228-1200 | every legal step keeps the invariant |
| PoolProofs.RunsKeep | lib/connection/pool.js:228-1200 | in every interleaving no connection is owned twice, every connection in use carries exactly one monitoring operation, every accepted operation is waiting, in flight or ended exactly once; unless destroyed by force, ordinary operations are sent in order and every callback is called |
| PoolProofs.CalledOnce | lib/connection/pool.js:353-459 | a callback is called at most once and never while its operation waits or is in flight |
| PoolProofs.DestroyedOnlyDrained | lib/connection/pool.js:718-746 | a graceful destroy ends only with nothing waiting and no work on the pool's connections |
| PoolEffects.ReplyAnswers | lib/connection/pool.js:353-459 | the last operation a reply names leaves its connection and is called back, unless marked immediateRelease; those found before it leave in silence; a connection in use becomes available, others stay where they are; nothing else changes |
| PoolEffects.ReplyStray | lib/connection/pool.js:353-376 | a reply that names nothing in flight resets the count of timeouts and nothing else |
| PoolEffects.NoneMislaid | lib/connection/pool.js:228-1200 | over every run, until the pool is destroyed: attempts unanswered are what is counted as connecting, and a live connection whose socket never broke stands in exactly one of the two lists |
| PoolEffects.PickedInTurn | lib/connection/pool.js:1073-1082 | round robin passes nobody over: each idle connection, or each one if none is idle, is picked within as many picks as there are available ones |
| PoolEffects.NothingWaitsIdly | lib/connection/pool.js:1039-1200 | the loop leaves an operation waiting only if no connection is available, one was found dead or broke, or every live one is busy and the pool may grow or the operation is a monitoring one; if it may grow, one more connection is asked for |
| PoolEffects.PipelinesWhenFull | lib/connection/pool.js:1073-1162 | an operation is sent on a busy connection only if it is ordinary, none is idle and the pool is full |
| PoolEffects.WriteTakes | lib/connection/pool.js:816-941 | refused exactly by a pool being destroyed; ordinary operations queue at the back, monitoring ones at the front |
| PoolEffects.Served | lib/connection/pool.js:353-1200 | an operation written to a pool with nothing waiting and an idle live connection is sent there at once and called back by its reply |
| PoolEffects.FailureEffect | lib/connection/pool.js:228-281 | a failed connection leaves both lists and each operation in flight on it is called back in order; the pool is disconnected when it was the last, asks for one more below its minimal size, and is otherwise unchanged |
| PoolEffects.FailureOnce | lib/connection/pool.js:228-231 | a second failure of a connection changes nothing |
| PoolEffects.TimeoutDestroys | lib/connection/pool.js:243-256 | one timeout too many in a row destroys the pool, its queue called back after the connection's own operations |
| PoolEffects.ForcedEffect | lib/connection/pool.js:690-705 | a forced destroy empties the lists and calls back exactly who waits in the queue, in order |
| PoolEffects.DrainedExact | lib/connection/pool.js:718-746 | a graceful destroy's look ends the pool if and only if the flush leaves nothing waiting and nothing is in flight |
| PoolEffects.ConnectJoins | lib/connection/pool.js:976-1024 | an answered attempt is no longer counted; its connection joins and waiting work is taken up, unless the pool is destroyed |
| PoolEffects.OpenRun | lib/connection/pool.js:539-603 | a new pool, opened and connected, has one connection and outside a topology its minimal number under way |
| PoolEffects.ReconnectExact | lib/connection/pool.js:283-300 | another attempt exactly if no connection is up and the pool is not destroyed |
| PoolEffects.DestroyedForGood | lib/connection/pool.js:639-1043 | a destroyed pool stays destroyed, sends nothing and takes nothing |
| PoolFailures.DispatchExact | lib/connection/pool.js:1159-1195 | for every kind of operation, a write conserves operations if and only if it succeeds |
| PoolFailures.BrokenLedger | lib/connection/pool.js:1187-1195 | a failed write counts exactly its own operation once more |
| PoolFailures.TurnExact | lib/connection/pool.js:1057-1196 | a turn of the loop conserves operations if and only if it sends on no broken connection |
| PoolFailures.ExecuteExact | lib/connection/pool.js:1039-1200 | whatever sockets break, the loop keeps ownership, and conserves operations if and only if it ends with no failed write; otherwise exactly the operation put back is counted once more |
| PoolFailures.CalledTwice | lib/connection/pool.js:228-240 | a failed write, the failure handler, a resend and its reply call one callback twice |
| PoolRuns.StepSurplus | lib/connection/pool.js:228-1200 | with any sockets broken, every step keeps ownership and adds exactly its failed write to the count of its operation |
| PoolRuns.BrokenRunsKeep | lib/connection/pool.js:228-1200 | over every run on any breaking sockets no connection is owned twice, and an operation is counted as often as it was accepted plus once per failed write of it |
| PoolRuns.CalledTwiceRun | lib/connection/pool.js:1039-1200 | a run from a new pool in which one callback is called twice |
| PoolFailures.FlushExact | lib/connection/pool.js:1027-1037 | a flush leaves no monitoring operation if and only if no two stand next to each other |
| PoolFailures.MatchExact | lib/connection/pool.js:358-366 | the search leaves no work item with the id if and only if no two stand next to each other |
| PoolFailures.TwoMonitoringWrites | lib/connection/pool.js:935-941 | two monitoring operations written in a row: a flush fails the second and leaves the first |
| PoolFailures.ForcedSilence | lib/connection/pool.js:690-705 | a forced destroy ends in silence exactly what is in flight and what waits without a callback |
| PoolFailures.ForcedExact | lib/connection/pool.js:690-705 | a forced destroy leaves no caller waiting if and only if no caller waits for what is in flight |
| PoolObject.ConnectionPool.constructor | lib/connection/pool.js:66-160 | a new pool is empty and disconnected |
| Lists.RemoveFirst | lib/connection/pool.js:961-968 | the loop takes the first occurrence out of a list and says whether there was one |
| PoolObject.ConnectionPool.TakeOutMonitoring | lib/connection/pool.js:1027-1037 | the splicing loop computes what is kept and what is flushed |
| PoolObject.ConnectionPool.RemoveConnection | lib/connection/pool.js:961-973 | the first list that holds the connection loses it |
| PoolObject.ConnectionPool.MakeAvailable | lib/connection/pool.js:344-351 | a connection in use becomes available, another is left alone |
| PoolObject.ConnectionPool.CreateOne | lib/connection/pool.js:976-981 | one more attempt, unless the pool is destroyed |
| PoolObject.ConnectionPool.PickConnection | lib/connection/pool.js:1073-1082 | round robin over idle connections, or over all if none is idle |
| PoolObject.ConnectionPool.FindIdle | lib/connection/pool.js:1099-1114 | the first connected connection without work, if there is one |
| PoolObject.ConnectionPool.ExecuteTurn | lib/connection/pool.js:1057-1196 | the loop's body computes `Turn`, requeues included |
| PoolObject.ConnectionPool.ExecuteQueue | lib/connection/pool.js:1039-1200 | the loop terminates and computes `Execute` |
| PoolObject.ConnectionPool.WriteOperation | lib/connection/pool.js:816-950 | refused, queued at the front or queued at the back |
| PoolObject.ConnectionPool.TakeMatching | lib/connection/pool.js:358-366 | the splicing loop computes the matches and what stays |
| PoolObject.ConnectionPool.MessageHandler | lib/connection/pool.js:353-459 | a reply computes `Reply` |
| PoolObject.ConnectionPool.ConnectionFailureHandler | lib/connection/pool.js:228-281 | a failure computes `Fail`, once per connection |
| PoolObject.ConnectionPool.DestroyByForce | lib/connection/pool.js:678-705 | a forced destroy computes `ForceDestroy` |
| PoolObject.ConnectionPool.CheckDrained | lib/connection/pool.js:718-743 | a graceful destroy's look at the pool computes `CheckStatus` |
| PoolObject.ConnectionPool.OpenPool | lib/connection/pool.js:539-547 | a pool is opened once |
| PoolObject.ConnectionPool.OnFirstConnected | lib/connection/pool.js:548-603 | the first connection joins; outside a topology the minimal size follows |
| PoolObject.ConnectionPool.OnConnected | lib/connection/pool.js:982-1024 | a new connection joins and waiting work is taken up |
| PoolObject.ConnectionPool.OnConnectionFailed | lib/connection/pool.js:982-995 | a failed attempt is no longer counted |
| PoolObject.ConnectionPool.AttemptReconnect | lib/connection/pool.js:283-296 | one attempt more unless the pool is destroyed or connected |
| CursorEffects.SliceEndExact | lib/cursor.js:297-303 | where the slice of the buffer ends, negative remainders included |
| Cursors.Cursor.Next | lib/cursor.js:439-581 | next computes `NextOf`: limits, getMores, kills, notification and the TypeError of a missing cursor id |
| Cursors.Cursor.GetMore | lib/cursor.js:464-530 | a getMore of the right size is sent, or refused, and its batch taken over |
| Cursors.Cursor.InitializeCursor | lib/cursor.js:582-660 | the first answer is taken over as batch and cursor id; a failed selection leaves the cursor as it was, a failed query leaves it started |
| Cursors.Cursor.ReadBufferedDocuments | lib/cursor.js:279-311 | the buffer's next documents are handed out and counted |
| Cursors.Cursor.KillCursor | lib/cursor.js:318-336 | the cursor dies and the server is told if it has a cursor |
| Cursors.Cursor.Rewind | lib/cursor.js:343-358 | a started cursor is reset, killing a live server cursor |
| CursorEffects.ReadExact | lib/cursor.js:279-311 | reading the buffer hands out its next documents, exactly as many as asked for, unread and allowed by the limit; the cursor is killed if and only if the limit withholds one |
| CursorEffects.AsksExact | lib/cursor.js:213-227 | next sends one getMore per answer it takes, and each asks for a batch or, if that is less, what the limit leaves |
| CursorEffects.NextAtLimit | lib/cursor.js:464-481 | at its limit a cursor answers null, asks nothing and kills the server's cursor |
| CursorEffects.NullIsDead | lib/cursor.js:405-443 | after its first answer, a cursor that says null is dead, notified and empty; one dead before is also killed, without telling the server |
| CursorEffects.EmptyResult | lib/cursor.js:582-660 | a query without results ends at once, notified but not dead |
| CursorEffects.UnopenedRewind | lib/cursor.js:343-358 | rewinding a cursor never asked anything resets nothing |
| CursorEffects.NoCursorIsLeft | lib/cursor.js:318-336 | from a new or rewound cursor, over any calls and answers: the server's cursor is not killed while the cursor lives, and is killed once it is over unless the server closed it |
| CursorProofs.NextMoves | lib/cursor.js:439-581 | every call of next keeps to the list, whatever the batches and failures |
| CursorProofs.ReadMoves | lib/cursor.js:279-311 | reading the buffer hands out the next documents and stays within the limit |
| CursorProofs.CallsDeliverPrefix | lib/cursor.js:279-581 | any mix of calls delivers a prefix of the concatenated batches, bounded by the limit |
| CursorProofs.DrainIsTheList | lib/cursor.js:439-581 | unless the initial query itself fails, draining gives exactly the bounded list, then null once, then only "exhausted"; every call gives one of these or uses up one failure |
| CursorProofs.NothingAfterNull | lib/cursor.js:405-443 | after null nothing is delivered by any call |
| CursorProofs.AskedWithin | lib/cursor.js:213-227 | every getMore asks for at least one document and at most the number still wanted |
| CursorProofs.RewoundIsFresh | lib/cursor.js:343-358 | a rewound cursor is a new one; the server's cursor is killed exactly if it was alive |
| CursorProofs.ThrownExact | lib/cursor.js:439-468 | over any calls, kills and rewinds and any answers, next raises a TypeError if and only if the initial query was sent and failed and nobody has killed or rewound the cursor since |
| TransactionProofs.StepLegal | lib/transactions.js:24-45 | no event makes a transition the table forbids |
| TransactionProofs.SendsOutside | lib/sessions.js:620-645 | a retryable write, sent any number of times, carries its own new number and nothing of a transaction |
| TransactionProofs.CommitKeeps | lib/sessions.js:368-504 | a commit keeps the log good: same number, never a start, majority from the second on |
| TransactionProofs.AbortKeeps | lib/sessions.js:368-504 | an abort is sent only in a started transaction and under its number |
| TransactionProofs.StepKeeps | lib/sessions.js:185-504 | every clean event keeps the invariant |
| TransactionProofs.RunKeeps | lib/sessions.js:185-504 | in every clean run exactly the first command of each transaction starts it, a number has one owner, every commit but the first asks for a majority with the user's wtimeout or 10000 |
| TransactionProofs.RecommitExact | lib/sessions.js:368-504 | over any run of repeated commits with any failures, a further commit that is sent leaves every commit naming a started transaction if and only if no number was taken silently since the first |
| TransactionProofs.NumbersAdvance | lib/sessions.js:169-200 | the number is constant while active and each new transaction's is above all sent before |
| TransactionProofs.RunAbove | lib/sessions.js:169-200 | whatever the run, a session sends only numbers above the one its server session came with |
| TransactionProofs.ReuseIncreases | lib/sessions.js:575-608 | numbers keep strictly increasing when a pooled server session is used again |
| TransactionProofs.StartLeaves | lib/sessions.js:185-200 | a start outside a transaction is refused only for an unacknowledged write concern |
| TransactionProofs.CommitLeaves | lib/sessions.js:208-222 | a commit never leaves the transaction active |
| TransactionProofs.AbortLeaves | lib/sessions.js:229-246 | an abort always leaves it aborted |
| TransactionEffects.TransitionExact | lib/transactions.js:24-45 | a transition is made if and only if the table allows it, and gives up the pinned server when a transaction is left or started |
| TransactionEffects.PinEffect | lib/transactions.js:152-156 | only an active transaction is pinned to a server |
| TransactionEffects.StartEffect | lib/sessions.js:185-200 | a start takes the next number and sends nothing; refused for its write concern it takes the number too |
| TransactionEffects.CommandEffect | lib/sessions.js:620-679 | a command in a transaction is sent under its number, the first starting it, and refused off the primary; outside it is sent plainly and a finished transaction forgotten |
| TransactionEffects.WriteEffect | lib/sdam/topology.js:869-919 | every send of a retryable write carries the one number it took |
| TransactionEffects.CommitEffect | lib/sessions.js:403-504 | a commit puts on the wire exactly one command per attempt that reaches it, with the transaction's concern, or a majority when repeated; the second attempt follows exactly a retryable error; the caller is told the last error, relabelled, or success |
| TransactionEffects.UnknownExact | lib/sessions.js:438-463 | a commit's caller sees UnknownTransactionCommitResult if and only if the error left the outcome in doubt or carried it already |
| TransactionEffects.EmptyCommitEffect | lib/sessions.js:368-393 | a commit of a transaction that sent nothing sends nothing; without one, or after an abort, it is refused |
| TransactionEffects.AbortEffect | lib/sessions.js:394-504 | an abort in progress puts one command per attempt on the wire and ends aborted whatever the answers; elsewhere nothing is sent |
| TransactionEffects.WholeTransaction | lib/sessions.js:185-679 | start, any number of commands, commit or abort: exactly those commands under one new number, the first starting it, then one commit or abort, and nothing at all if there was no command |
| Sessions.PassesExactly | lib/sessions.js:529-537 | under an hour, the test passes exactly below the timeout less one minute plus thirty seconds of rounding |
| Sessions.HoursForgotten | lib/sessions.js:529-537 | whole hours of idling make no difference |
| Sessions.TimedOutExact | lib/sessions.js:529-537 | the test is right if and only if the idle time past the last whole hour decides the same |
| Sessions.ServerSessionPool.Acquire | lib/sessions.js:575-585 | the first session that has not timed out leaves the pool with the stale ones before it, or a new one is made |
| Sessions.ServerSessionPool.Release | lib/sessions.js:594-608 | stale sessions leave the back; one still good goes to the front |
| Sessions.ClientSession.StartTransaction | lib/sessions.js:185-200 | the method computes `StartTransaction` on the session's view |
| Sessions.ClientSession.ApplySession | lib/sessions.js:620-679 | the stamps on a command and the state after it |
| Sessions.ClientSession.CommitTransaction | lib/sessions.js:368-504 | the method computes `CommitTransaction`, its single retry included |
| Sessions.ClientSession.AbortTransaction | lib/sessions.js:368-504 | the method computes `AbortTransaction` |
| Sessions.SessionRegistry.StartSession | lib/sdam/topology.js:351-359 | a new client session starts afresh on a server session nobody else owns: the first in the pool that has not timed out, or a new one |
| Sessions.SessionRegistry.EndSession | lib/sessions.js:112-135 | an active transaction is aborted; the server session goes to the front of the pool if it has not timed out, stale ones leave its back, and nobody else's changes |
| WithTransactions.CommitsSettle | lib/sessions.js:298-318 | in a chain of commits all but the last left the outcome unknown with time left; the last succeeded or failed, and not so |
| WithTransactions.PassSettles | lib/sessions.js:324-366 | an attempt ends without an error if and only if the function did and either the user ended the transaction or the last commit succeeded; its error is the function's or the last commit's |
| WithTransactions.StorySettles | lib/sessions.js:271-366 | the result is that of the last attempt; an attempt is made again exactly if its error is a transient MongoError and time is left |
| WithTransactions.TransactionRunner.AttemptCommit | lib/sessions.js:298-318 | commits are repeated exactly while unknown and in time, the whole transaction exactly on a transient error in time; further runs are bounded by the time used |
| WithTransactions.TransactionRunner.Attempt | lib/sessions.js:324-366 | one attempt and all that follow it are a `Story`: the function's steps performed, commits, abort and result as the environment decides; the recursion ends with the clock |
| WithTransactions.WithTransaction | lib/sessions.js:271-366 | for any function and any answers: resolved if and only if the last attempt ended without an error, rejected with exactly its error otherwise, refused only for a transaction under way or an unacceptable write concern; the session is left as the story says, inactive, within 120000 ms of clock ticks |
| RetryableWrites.WriteOperation.Perform | lib/sdam/topology.js:912-918 | an attempt marked for retry is stamped with the current number |
| RetryableWrites.WriteOperation.Execute | lib/sdam/topology.js:869-919 | at most two attempts under one number, raised once, the second only after a retryable error, one callback |
| LegacyProofs.ClaimsAdvance | lib/topologies/replset_state.js:432-452 | a claim accepted in either branch never lowers the election id, and not the pair if it is complete |
| LegacyProofs.RunsAdvance | lib/topologies/replset_state.js:421-578 | over any run the highest election id never decreases; if claims report both ids the pair never does |
| LegacyProofs.LoweredExact | lib/topologies/replset_state.js:421-578 | by the guards of the two branches, exactly which claims lower the pair |
| LegacyProofs.StepKeeps | lib/topologies/replset_state.js:158-685 | one answer or removal keeps the believed primary's entry, its election id the highest, and the lists free of repetition |
| LegacyProofs.RunsKeep | lib/topologies/replset_state.js:158-685 | the same over every run in which the believed primary keeps its name |
| LegacyProofs.ThrownExact | lib/topologies/replset_state.js:590-681 | in the states such runs keep, exactly when an update raises a TypeError |
| LegacyProofs.EntryLostExact | lib/topologies/replset_state.js:375-417 | exactly the believed primary that reports another name for itself loses its entry |
| LegacyProofs.ClaimsThrowWithoutEntry | lib/topologies/replset_state.js:484-488 | then every claim to be primary raises a TypeError |
| LegacyProofs.OneThroneExact | lib/topologies/replset_state.js:299-685 | in the states such runs keep, exactly when an answer leaves a former primary typed as one |
| LegacyProofs.LeftThroneUnseats | lib/topologies/replset_state.js:673-681 | such a member later ends the belief in any other primary |
| LegacyEffects.ClaimExact | lib/topologies/replset_state.js:421-578 | a claim is accepted exactly by its ids, versions and names; an accepted one enthrones the server (without a primary only if it lists itself), blanks the old primary and sets the maxima; any other changes nothing but the hosts known |
| LegacyEffects.NewerClaimWins | lib/topologies/replset_state.js:484-578 | a complete claim with a newer election id takes the throne from any believed primary of the set |
| LegacyEffects.MemberExact | lib/topologies/replset_state.js:590-687 | which list an answering member joins, how it is typed, and when the belief in a primary ends |
| LegacyEffects.LostExact | lib/topologies/replset_state.js:158-214 | a lost server leaves the lists, its entry and the throne, unless it is a failed attempt on a connected member |
| LegacyEffects.RolelessExact | lib/topologies/replset_state.js:358-371 | an answer that names no role takes the server out as a loss does |
| LegacyEffects.OutsidersExact | lib/topologies/replset_state.js:299-356 | a mongos or ghost is primary no more; ghosts and others are typed so and name the set |
| LegacyEffects.RenamedExact | lib/topologies/replset_state.js:375-417 | a member known by another name loses its entry; the primary it names is suspected if none is believed in |
| LegacyEffects.SilentExact | lib/topologies/replset_state.js:259-271 | a server that gives no answer is known, and nothing is known of it |
| LegacyFailures.LeftThroneRun | lib/topologies/replset_state.js:299-307 | a run in which a primary turned mongos later raises a TypeError |
| LegacyFailures.LostEntryRun | lib/topologies/replset_state.js:375-417 | a run in which a renamed primary makes the next claim raise a TypeError |
| LegacyFailures.LoweredRun | lib/topologies/replset_state.js:485-545 | a run in which a claim takes the highest set version back |
| ReplicaSetState.ReplSetState.RemoveServer | lib/topologies/replset_state.js:158-214 | a failed attempt on a connected member changes nothing, otherwise it leaves every list |
| ReplicaSetState.ReplSetState.ClaimWithoutPrimary | lib/topologies/replset_state.js:421-483 | the branch computes `FirstPrimary` |
| ReplicaSetState.ReplSetState.ClaimWithPrimary | lib/topologies/replset_state.js:484-578 | the branch computes `ReplacePrimary` |
| ReplicaSetState.ReplSetState.HandleEarly | lib/topologies/replset_state.js:299-417 | the answers settled before elections compute `Early` |
| ReplicaSetState.ReplSetState.HandleMember | lib/topologies/replset_state.js:590-687 | secondaries, arbiters and passives compute `Member` |
| ReplicaSetState.ReplSetState.UpdateServer | lib/topologies/replset_state.js:218-687 | the method computes `Update` |
| Picking.SeedsExact | lib/topologies/replset_state.js:930-971 | which modes start from the primary: all but the two secondary ones, and secondary mode if there is no secondary |
| Picking.NearestWindowExact | lib/topologies/replset_state.js:930-971 | the window holds exactly the tagged servers within the latency of every tagged server, each as often as tagged |
| Picking.TagSetsCount | lib/topologies/replset_state.js:837-868 | the filter lists a server once for every tag set it matches |
| Picking.ProxyWindowExact | lib/topologies/mongos.js:479-500 | the window holds exactly the connected proxies within the threshold of every proxy |
| Picking.NearestRoundRobin | lib/topologies/replset_state.js:973-981 | consecutive calls walk round the window from the index |
| Picking.ProxyRoundRobin | lib/topologies/mongos.js:504-512 | the same for proxies |
| Picking.NearestIsFair | lib/topologies/replset_state.js:930-982 | as many calls as the window is long pick a server within the latency once per tag set it matches, and no other; a member listed once is picked exactly once if and only if it is within the latency and matches one tag set |
| Picking.ProxiesAreFair | lib/topologies/mongos.js:479-512 | the same for the connected proxies within the threshold |
| Picking.DisconnectedProxyExact | lib/topologies/mongos.js:504-507 | a disconnected proxy is picked if and only if it is the first and no connected one is within the threshold |
| Picking.PinMoves | lib/topologies/mongos.js:471-520 | without a connected pinned proxy a transaction is pinned to the proxy picked if it is active and the proxy connected, else to none |
| Picking.PinnedStays | lib/topologies/mongos.js:471-477 | a pinned transaction keeps its connected proxy and uses up no turn |
| Picking.TakenOutExact | lib/topologies/mongos.js:522-533 | the splicing loop leaves nobody of the name if and only if no two of them stand next to each other |
| Picking.MoveKeepsSeparate | lib/topologies/mongos.js:522-536 | moving a proxy between lists keeps the three separate if and only if the third did not hold it, and moves nobody else |
| Picking.ReplSetPicker.FilterServers | lib/topologies/replset_state.js:837-868 | the nested loops compute `FilterByTags` |
| Picking.ReplSetPicker.Pick | lib/topologies/replset_state.js:930-982 | the method computes `PickNearest` and its next index |
| Picking.MongosProxies.Pick | lib/topologies/mongos.js:467-520 | the method computes `PickProxy`, index and pin included |
| Picking.MongosProxies.SpliceOut | lib/topologies/mongos.js:522-534 | the splicing loop computes `TakenOut` |
| Picking.MongosProxies.Joined | lib/topologies/mongos.js:344-367 | a new proxy joins the connected ones, or the disconnected ones if its name is connected already |

## Left out

- Sockets, TLS, DNS, timers and the event loop: they are the order of steps, chunks, answers and clock readings.
- BSON and the compression algorithms: documents are self-delimiting byte strings, a compressor and its decompressor an
  abstract inverse pair; snappy and zlib answer later than the call, an unknown compressor at once.
- Frames shorter than a header or with an unreadable body: processing them is an exception of the frame as a whole.
- The TypeError that `canCompress` raises for a getMore or killCursors under compression.
- OP_MSG payload type 1: like the code, its bytes are stepped over one by one.
- URI parsing, authentication, command monitoring, logging, connection set-up, SDAM monitoring and events, the
  wireprotocol option copying: request plumbing and event objects, with single-branch rules.
- Overlapping operations on one session, tailable cursors, cursors made from an id or from given documents, changes of the
  limit between calls, document transforms, and the wire form of a getMore.
- The bson library's `Long.equals`: comparing with an id that is null is taken to raise a TypeError, as bson 1.1 does by
  reading the other number's halves.
- `recoveryToken`, causal consistency, read concern and cluster time: stamps that no modelled branch reads.
- Callbacks that call back into the pool, and connections that fail while the pool is being closed: the pool's
  steps are atomic.
- PoolProofs.RunsKeep: assumes that socket writes succeed (`PoolRuns.BrokenRunsKeep` says what those that fail do) and
  that a reply matches one operation in flight, since the ids of different kinds of request can coincide.
- TransactionProofs.RunKeeps: speaks of runs that take no number silently; `RecommitExact` shows what the others do.
- The retries of the reconnect timer before it destroys the pool: the destroy is a step of its own.
- Sdam.Blank: one made during an update carries the time of the answer's own description, made just before it.
- Sessions.TimedOut: a missing timeout counts as 0, as `null - 1` does.
- Sessions.SessionRegistry.EndSession: an active transaction's abort is answered before the session is given back.
- The wait of `selectServers` between attempts, its random choice among several servers, and the pinning of sharded
  transactions in the unified topology.
- ReadPreference's own validation: any combination of mode, tags and staleness may reach the selectors.
- Cluster.SelectionIsBacked: says nothing while the description is incompatible, when the handler leaves the servers as
  they were.
- `topologyType`, `unknownServers`, `logicalSessionTimeoutMinutes` and the events of the legacy state, which no modelled
  branch reads; lower-casing of names; an answer without `hosts`, which no primary sends.
- LegacyProofs.RunsKeep: assumes that the believed primary does not report another name for itself; `EntryLostExact` says
  what happens otherwise.
- `pickServer`'s choice among the pickers and `pickNearestMaxStalenessSeconds`, which differs from `pickNearest` in its
  filter only.
- Picking.Sort: the built-in sort is taken to be stable, as ECMAScript 2019 requires.
- The reconnection of disconnected proxies, which makes new server objects.
