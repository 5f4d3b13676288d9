# Radapter, verified

A Dafny model of the parts of the Qt message router Radapter in which a mistake would be hardest to
see, with proofs of what those parts promise. `dafny verify dfyconfig.toml` checks everything.

The model keeps the form of the program: objects that update their fields are classes, loops are
loops, arrays are changed in place, and each such method is proved against a function of its inputs
or of the old state. What the program promises is then proved about those functions, over all inputs
or all runs.

| files | what they model |
|---|---|
| `Keys`, `IndexKeys`, `JsonValue`, `JsonLeaves`, `JsonDoc`, `JsonNormal` | key paths, the document tree, auto-creating path writes, leaf lists |
| `LeafIterator` | the explicit-stack leaf iterator |
| `JsonMerge`, `JsonDict`, `JsonLaws`, `JsonNest` | the JsonDict class, and what merge, update, diff, flatten, nest and sanitized do |
| `SyncJson` | current, target and the deltas between them |
| `WordOperations`, `ModbusUnits`, `ModbusMerge`, `ModbusScan`, `ModbusState`, `ModbusPoll` | the register codec, coalescing of data units, the scan, the round trip through all three into a slave's state, and a master's poll |
| `Channel`, `MasterQueues` | the bus arbiter and the queues of a Modbus master |
| `Bus`, `BusSafety`, `BusLaws`, `BusLimits` | arbiter and masters joined by signals in flight: invariants of every run, their consequences, and runs that show where a promise ends |
| `RedisContexts`, `RedisRuns`, `ReplyDispatch` | command contexts, all interleavings of commands and callbacks, and the dispatch of replies |
| `PipeParsing`, `Pipeline`, `Bidirectional` | pipe functions as text, pipeline lines, and pipes run both ways |
| `Routing` | workers, the broker and exactly-once delivery |

Sockets, redis, timers and clocks appear as events and parameters: a clock reading, whether redis
takes a command, which of the equally ranked users a hash table yields first. In `Bus` the queued
signals are multisets, so every order of delivery is covered.

Some results say where the program does not do what one would expect:

- A merge told not to overwrite still drops a leaf of the receiver when the argument has a leaf
  below it (`KeepingMergeKeeps`, `KeepingMergeLoses`).
- The slave's scan turns for ever when a block ends in the first word of a two-word register
  (`ScanEnds`, `ScanEndsDisjoint`, `HalfWriteHangs`).
- A master asks for one word per readable register, so a poll never decodes a register of two words
  unless registers overlap (`PollDecodesSingles`).
- Two data units at one address can make the coalescing lose a word (`DuplicateStartLosesWord`).
  Distinct addresses suffice for every word to be kept (`CellsConserved`); this is not claimed to be
  necessary. The three callers build their units from registers whose addresses the collision check
  keeps distinct (`BuildReverse`), so no such list reaches the function.
- Words encoded on a host of one byte order and decoded on a host of the other come out with their
  bytes reversed, whatever the register settings (`AcrossHosts`).
- A user of the channel with two rivals of its own priority or higher can starve
  (`TwoRivalsStarve`), and a read queued before a connection is lost can be forgotten until the
  master writes, reads something else or connects anew (`ReconnectForgets`, `ForgottenUntilWoken`).
- A read of an object that meets an empty hash is refused and then answered
  (`RepliesOnceExactly`); a failed read for a plain message leaves its context behind for ever
  (`StuckForever`).
- Text after the closing parenthesis of a pipe function is ignored, but a second pair of parentheses
  becomes one more argument (`TrailingIgnored`, `SecondPairIsArgument`).
- A message sent on behalf of another worker may be handled twice or not at all
  (`ForwardedOnceExactly`, `TwiceOrNever`). The senders in the repository name themselves, so only a
  worker that sends on a received message unchanged gets there.
- A connection that a role refuses leaves its pipe joined to the consumer (`DeliveredOnce`).

Lists are bounded by 65536 elements wherever leaves are concerned, since the iterator counts them in
16 bits, and no key below the top of a document has the form of a list index; both are part of the
predicate `Tidy`.

## Model

| member | source | states |
|---|---|---|
| `Keys.SplitJoin` | src/jsondict/jsondict.cpp:548-551 | splitting a joined key path gives the path back exactly when no key holds the separator |
| `Keys.IndexKeyIndex` | src/jsondict/jsondict.cpp:62-68 | the key "[n]" that a list reports is read back as index n, for every n below 2^63 |
| `IndexKeys.IndexExactly` | src/jsondict/jsondict.cpp:62-68 | a key names list element n exactly when it is n spelled in brackets, with any leading zeros, sign and blanks, within 64 bits |
| `Keys.SortedKeys` | src/jsondict/jsondict.cpp:497-522 | the order in which a QMap visits its keys: every key once, ascending |
| `Keys.AtFirstDifference` | src/jsondict/jsondict.cpp:497-522 | that order: the first characters in which two keys differ decide, and a key comes before its continuations |
| `JsonValue.WriteThenGet` | src/jsondict/jsondict.cpp:363-419 | a read after a path write yields the written value, whatever containers the write had to open |
| `JsonValue.WriteElsewhere` | src/jsondict/jsondict.cpp:363-419 | a path write is invisible on every path incomparable with it, list padding included |
| `JsonValue.WriteAbove` | src/jsondict/jsondict.cpp:363-419 | above the written path there is a container, of the kind that was there before |
| `JsonValue.WriteLeaves` | src/jsondict/jsondict.cpp:363-419 | the exact effect of writing a scalar on every leaf: the new one is there, comparable ones are gone, others stay |
| `JsonValue.CanWriteBefore` | src/jsondict/jsondict.cpp:373-387 | a write refused before an incomparable write is refused after it |
| `JsonValue.CanWriteAfter` | src/jsondict/jsondict.cpp:373-387 | a write possible before an incomparable write of agreeing kind is possible after it |
| `JsonLeaves.LeafIsGet` | src/jsondict/jsondict.cpp:70-98 | the recursive leaf list holds a path and scalar exactly when a path read finds that scalar |
| `JsonLeaves.LeavesApart` | src/jsondict/jsondict.cpp:927-966 | no two listed leaves lie on comparable paths, and they part at a container of one kind |
| `JsonDoc.DocLeafIsGet` | src/jsondict/jsondict.cpp:209-216 | the same for whole documents: iteration and path reads agree on every leaf |
| `JsonDoc.DocWriteLeaves` | src/jsondict/jsondict.cpp:553-556 | the effect of inserting a scalar on the leaves of a document |
| `JsonDoc.DocCanWriteAcross` | src/jsondict/jsondict.cpp:363-387 | whether an insertion throws does not depend on insertions at paths parted from it |
| `LeafIterator.Iterator.Begin` | src/jsondict/jsondict.cpp:995-1007 | begin(): the iterator stands on the first leaf, with the whole leaf list before it |
| `LeafIterator.Iterator.Advance` | src/jsondict/jsondict.cpp:927-966 | the self-recursive step with its push, pop, skip-null and resume branches ends, and passes exactly one leaf from rest and none in recursion |
| `LeafIterator.PushStep` | src/jsondict/jsondict.cpp:945-958 | descending into a container keeps the pending leaves and lowers the measure |
| `LeafIterator.PopStep` | src/jsondict/jsondict.cpp:932-943 | climbing out of an exhausted container keeps the pending leaves and lowers the measure |
| `LeafIterator.BumpStep` | src/jsondict/jsondict.cpp:929-963 | passing a null drops nothing, passing a leaf drops exactly that leaf under its full key path |
| `LeafIterator.Iterator.EndMeansDone` | src/jsondict/jsondict.cpp:968-970 | the comparison with end() holds exactly when no leaf remains |
| `LeafIterator.Iterator.Key` | src/jsondict/jsondict.cpp:876-887 | key() is the full path of the next pending leaf |
| `LeafIterator.Iterator.Value` | src/jsondict/jsondict.cpp:777-780 | the value under the cursor is that of the next pending leaf |
| `LeafIterator.Traverse` | src/jsondict/jsondict.cpp:169-187 | a range-for over a document visits its recursive leaf list: each leaf once, in depth-first order, with its key path |
| `JsonMerge.InsertAllLeaves` | src/jsondict/jsondict.cpp:295-305 | which leaves a document has after a loop of conditional insertions of any parted leaf list |
| `JsonMerge.InsertAllOk` | src/jsondict/jsondict.cpp:295-305 | the loop throws exactly when some leaf it would insert is refused by the document as it was |
| `JsonMerge.InsertAllChanged` | src/jsondict/jsondict.cpp:333-345 | the loop reports a change exactly when it met a leaf to insert |
| `JsonDict.JsonDict.Value` | src/jsondict/jsondict.cpp:70-98 | recurseTo reads what the path names, through maps and lists |
| `JsonDict.JsonDict.Insert` | src/jsondict/jsondict.cpp:363-419 | the walk that opens containers and assigns is the recursive path write; it throws exactly when a step meets the other kind, and then nothing has changed |
| `JsonDict.JsonDict.Contains` | src/jsondict/jsondict.cpp:49-60 | contains(JsonDict): every leaf of the argument is held with its value |
| `JsonDict.JsonDict.Update` | src/jsondict/jsondict.cpp:295-345 | merge and update, with and without overwriting, as the insertion loop, with the document left behind by a throw |
| `JsonDict.JsonDict.Diff` | src/jsondict/jsondict.cpp:477-495 | diff in one or both directions, as insertions of the differing leaves |
| `JsonDict.JsonDict.Sanitized` | src/jsondict/jsondict.cpp:703-710 | sanitized is the insertion of every leaf into an empty document |
| `JsonDict.JsonDict.Flattened` | src/jsondict/jsondict.cpp:257-266 | flatten: one entry per leaf under its joined path |
| `JsonDict.JsonDict.NestInPlace` | src/jsondict/jsondict.cpp:497-522 | nest reinserts the entries in key order and leaves the document alone when it throws |
| `JsonLaws.MergeLeaves` | src/jsondict/jsondict.cpp:295-305 | the leaves of a.merge(b) are those of b plus those of a on no path comparable with a leaf of b |
| `JsonLaws.MergeThrows` | src/jsondict/jsondict.cpp:295-305 | merge throws exactly when a leaf of b that a does not hold meets a container of the other kind |
| `JsonLaws.KeepingMergeLeaves` | src/jsondict/jsondict.cpp:295-305 | the leaves of a merge that does not overwrite |
| `JsonLaws.KeepingMergeKeeps` | src/jsondict/jsondict.cpp:295-305 | such a merge keeps every leaf of a exactly when no leaf of b lies strictly below one |
| `JsonLaws.KeepingMergeLoses` | src/jsondict/jsondict.cpp:295-305 | a document that loses its leaf to a merge that does not overwrite |
| `JsonLaws.UpdateReports` | src/jsondict/jsondict.cpp:333-345 | update reports a change exactly when a does not contain b |
| `JsonLaws.MinusLeaves` | src/jsondict/jsondict.cpp:323-326 | a - b never throws and holds exactly the leaves of a that b does not hold |
| `JsonLaws.FullDiffThrows` | src/jsondict/jsondict.cpp:477-495 | the two-sided diff throws exactly when a changed leaf of one side parts from a changed leaf of the other at a map key here and a list index there |
| `JsonLaws.FullDiffLeaves` | src/jsondict/jsondict.cpp:477-495 | the leaves of the two-sided diff where it does not throw |
| `JsonLaws.SanitizedIsPruned` | src/jsondict/jsondict.cpp:703-710 | sanitized is the pruned document, and equals the document exactly when that has no null map entries, no nulls at the end of a list, and no empty containers |
| `JsonLaws.FlattenHoldsLeaves` | src/jsondict/jsondict.cpp:257-266 | the flat map holds each leaf under its joined path and nothing else |
| `JsonLaws.NestFlattenIsSanitized` | src/jsondict/jsondict.cpp:257-266 | nesting the flattened document gives what sanitized gives, although the leaves return in the order of their joined keys |
| `JsonNest.NestMoves` | src/jsondict/jsondict.cpp:497-522 | nest moves an entry to its split key: a list keeps its length and, at their places, all elements but maps with a leaf, which become their own nests, as does a nested map |
| `JsonNest.NestThrows` | src/jsondict/jsondict.cpp:497-522 | where the split keys part pairwise, nest throws exactly when it throws for a map inside the document |
| `JsonNest.NestLeavesAlone` | src/jsondict/jsondict.cpp:497-522 | nest leaves a document alone exactly when no key that it comes to, at any depth, holds the separator |
| `JsonNormal.NormalDetermined` | src/jsondict/jsondict.cpp:703-710 | documents without null map entries, nulls at the end of a list or empty containers are equal when their leaves are |
| `SyncJson.Json.UpdateCurrent` | src/sync/syncjson.cpp:34-39 | the new current is the merge, and the result what the merge changed |
| `SyncJson.Json.UpdateTarget` | src/sync/syncjson.cpp:58-63 | the new target is the merge, and the result what the merge changed |
| `SyncJson.Json.MissingToTarget` | src/sync/syncjson.cpp:29-32 | the missing part is target minus current, and nothing is changed |
| `SyncJson.DeltaLeaves` | src/sync/syncjson.cpp:34-39 | the delta holds exactly the leaves of the new state that the old one did not hold |
| `SyncJson.DeltaReproduces` | src/sync/syncjson.cpp:34-39 | merging the delta into the old state never throws and gives the new state leaf for leaf |
| `SyncJson.MissingNothing` | src/sync/syncjson.cpp:29-32 | nothing is missing exactly when current contains target |
| `SyncJson.CatchUp` | src/sync/syncjson.cpp:29-39 | feeding what is missing to updateCurrent leaves nothing missing, and throws exactly when a missing leaf meets a container of the other kind |
| `WordOperations.FlipBytesInWords` | src/utils/wordoperations.cpp:4-11 | the bytes of each word of the range are swapped in place, nothing else changes |
| `WordOperations.FlippedBytes` | src/utils/wordoperations.cpp:4-11 | flipping exchanges the high and the low byte of a word |
| `WordOperations.ReverseWords` | src/utils/wordoperations.cpp:36-39 | the words of the range are reversed in place, nothing else changes |
| `WordOperations.ApplyEndianess` | src/utils/wordoperations.cpp:32-40 | the range is repacked in place |
| `WordOperations.RepackedBack` | src/utils/wordoperations.cpp:32-40 | repacking from one mode to another and back is the identity for word lists of any length |
| `ModbusUnits.UnitList.MergeDataUnit` | src/modbus/modbusparsing.cpp:7-16 | the first unit that ends where the new one starts takes its words |
| `ModbusUnits.UnitList.SortAndMergeDataUnits` | src/modbus/modbusparsing.cpp:18-30 | the in-place loops leave the list that sweep and shifted removal define |
| `ModbusUnits.MergeDataUnits` | src/modbus/modbusparsing.cpp:31-68 | the result is the concatenation of the four coalesced tables, whatever the order of the units |
| `ModbusMerge.AbsorberUnmarked` | src/modbus/modbusparsing.cpp:18-30 | with distinct starts the unit that absorbs another has not itself been marked for removal |
| `ModbusMerge.MergeConserves` | src/modbus/modbusparsing.cpp:31-68 | coalescing conserves every measure that is additive over adjacent units |
| `ModbusMerge.CellsConserved` | src/modbus/modbusparsing.cpp:31-68 | the multiset of (table, address, word) cells is the same before and after |
| `ModbusMerge.MergeCanonical` | src/modbus/modbusparsing.cpp:18-30 | each table comes out sorted by start, with no unit ending where another starts |
| `ModbusMerge.DuplicateStartLosesWord` | src/modbus/modbusparsing.cpp:7-68 | distinct starts matter: of two units at one address, listed before the two that lead up to them, the second loses its word, for any four words |
| `ModbusScan.DecodeEncode` | src/modbus/modbusparsing.cpp:70-100 | decoding a register's words gives its value back, for every type, endianness and host byte order |
| `ModbusScan.WireWords` | src/modbus/modbusparsing.cpp:70-84 | which half of a value is sent first and whether its bytes are swapped, by the register settings and the host byte order |
| `ModbusScan.WireBytes` | src/modbus/modbusparsing.cpp:70-84 | whatever the host, each word of a unit lies in its memory with the bytes in the order of the register |
| `ModbusScan.AcrossHosts` | src/modbus/modbusparsing.cpp:70-100 | words encoded on one host and decoded on another give the value back exactly when the hosts share a byte order or the value reads the same backwards |
| `ModbusScan.BuildReverse` | src/modbus/modbusslave.cpp:52-63 | the collision check throws exactly when two registers of a table share an index, and else builds the inverse index |
| `ModbusScan.ParseModbusType` | src/modbus/modbusparsing.cpp:86-100 | decodes from the words, which it repacks in place within the register only |
| `ModbusScan.Slave.HandleNewWords` | src/modbus/modbusslave.cpp:99-137 | after any number of turns of the decode loop with its in-place repacking, on any block: whether it has ended, and the readings of those turns applied to state and diff |
| `ModbusScan.EnoughTurns` | src/modbus/modbusslave.cpp:103-114 | as many turns as the block has words make all readings of the scan, and end the loop if it ends at all |
| `ModbusScan.Slave.OnDataWritten` | src/modbus/modbusslave.cpp:139-166 | one write to the slave: whether its loop ends, and the state it leaves, of which `ModbusState.WrittenShows` tells what it shows |
| `ModbusScan.DecodeReply` | src/modbus/modbusmaster.cpp:301-319 | the master's loop makes the readings of the scan up to a register that does not fit |
| `ModbusScan.ScanEnds` | src/modbus/modbusslave.cpp:103-114 | for any device the slave's loop ends exactly when the last word of the block starts no two-word register, or one that an odd number of overlapping two-word registers right before it makes the loop step over |
| `ModbusScan.ScanEndsDisjoint` | src/modbus/modbusslave.cpp:103-114 | without overlapping registers it ends exactly when every register that starts in the block ends in it |
| `ModbusScan.HalfWriteHangs` | src/modbus/modbusslave.cpp:111-114 | a device with one two-word register and a write of its first word: the loop never moves, however many turns it makes |
| `ModbusScan.ScanTiles` | src/modbus/modbusslave.cpp:103-133 | a scan of registers laid end to end ends and reads exactly those registers |
| `ModbusScan.TilesConcat` | src/modbus/modbusparsing.cpp:11 | fusing two such runs of registers splits no register and keeps the readings |
| `ModbusScan.EncodeMergeScan` | src/modbus/modbusslave.cpp:186-205 | encode, coalesce, scan: every scan ends, and together they read back exactly the values that were encoded |
| `ModbusState.SlaveLearnsMessage` | src/modbus/modbusslave.cpp:99-205 | values encoded, coalesced and handled block by block by a slave that knew nothing leave it with exactly those registers: holding and input registers with their values, coils and discrete inputs with whether the value is other than zero |
| `ModbusState.WrittenShows` | src/modbus/modbusslave.cpp:114-133 | after a write every register that the scan of the block reads shows its value, or in the tables of bits whether it is other than zero; no other register changes, and what is sent on is exactly what is new |
| `ModbusState.MessageBlocksEnd` | src/modbus/modbusslave.cpp:99-205 | on none of those blocks does its loop hang |
| `ModbusPoll.ReplyReads` | src/modbus/modbusmaster.cpp:301-319 | a reply in which a register starts at every word is decoded into its one-word registers |
| `ModbusPoll.PollDecodesSingles` | src/modbus/modbusmaster.cpp:79-86 | a poll of a device without overlapping registers decodes each readable one-word register once and no two-word register, whatever the replies hold |
| `Channel.ToWaitIsDifference` | src/sync/channel.cpp:111-112 | the unsigned subtraction cast to signed is the true difference exactly when that fits 63 bits and a sign |
| `Channel.TimerInterval` | src/sync/channel.cpp:113-116 | the timer is started with the wait itself exactly when that is below 2^31 milliseconds, else with a negative time |
| `Channel.SomeGrant` | src/sync/channel.cpp:117-131 | whenever somebody waits on a ready channel there is a user to choose, the exclusion of the last one notwithstanding |
| `Channel.Channel.RegisterUser` | src/sync/channel.cpp:67-81 | refuses exactly the priorities other than the three |
| `Channel.Channel.OnJobDone` | src/sync/channel.cpp:87-93 | frees the bus, remembers who had it, and chooses |
| `Channel.Channel.AskTrigger` | src/sync/channel.cpp:95-100 | marks the sender as waiting and chooses |
| `Channel.Channel.OnTimeout` | src/sync/channel.cpp:49-50 | a fired timer is no longer running, and chooses |
| `Channel.Channel.ChooseNext` | src/sync/channel.cpp:102-123 | busy, too early with the timer restarted, nobody waiting, one waiting, or the highest priority among those that were not the last |
| `Channel.Channel.MaxElement` | src/sync/channel.cpp:118-121 | the maximum over the waiting users other than the last busy one |
| `MasterQueues.PollQueues` | src/modbus/modbusmaster.cpp:341-349 | a poll queues each query whose table, address and count are not queued yet, once, behind the others, and asks once for each |
| `MasterQueues.ModbusMaster.EnqeueRead` | src/modbus/modbusmaster.cpp:385-397 | a read that is queued already is neither queued nor asked for again |
| `MasterQueues.ModbusMaster.EnqeueWrite` | src/modbus/modbusmaster.cpp:399-403 | every write is queued and asked for |
| `MasterQueues.ModbusMaster.DoRead` | src/modbus/modbusmaster.cpp:341-349 | a poll queues and asks as the recursive definition says, and does nothing without a connection |
| `MasterQueues.ModbusMaster.Next` | src/modbus/modbusmaster.cpp:245-258 | writes before reads, and the turn given back without connection or work |
| `MasterQueues.ModbusMaster.ConnectDevice` | src/modbus/modbusmaster.cpp:233-243 | asks exactly when the device accepts and something is queued; a refusal is tried again |
| `MasterQueues.ServesInOrder` | src/modbus/modbusmaster.cpp:245-258 | successive turns serve all queued writes, then all queued reads, each in order; without connection none |
| `MasterQueues.WantedIsServed` | src/modbus/modbusmaster.cpp:385-403 | a new write is served after the writes before it, a new read after everything, and a read that is queued already once |
| `BusSafety.TokenKept` | src/modbus/modbusmaster.cpp:245-258 | every step keeps: the busy user, and nobody else, holds exactly one trigger, request or job-done signal |
| `BusSafety.AwakeKept` | src/sync/channel.cpp:102-123 | every step keeps: an idle channel on which somebody waits has its frame timer running until the end of the gap |
| `BusSafety.WorkKept` | src/modbus/modbusmaster.cpp:385-446 | every step keeps: queued work is asked for, unless a trigger has found its master disconnected |
| `BusSafety.PastKept` | src/sync/channel.cpp:117-131 | every step keeps the history of grants linked to the state of the arbiter |
| `BusSafety.Always` | src/modbus/modbusmaster.cpp:146-155 | all of it holds at every moment of every run, with signals delivered in any order |
| `BusLaws.OneTalks` | src/sync/channel.cpp:87-131 | triggers in flight, requests on the bus and job-done signals add up to one while the channel is busy and to none otherwise |
| `BusLaws.OnlyAskersTalk` | src/sync/channel.cpp:95-100 | nobody is triggered more often than it has asked |
| `BusLaws.GrantsApart` | src/sync/channel.cpp:109-122 | two successive grants are at least the frame gap apart |
| `BusLaws.GapStartsAnew` | src/sync/channel.cpp:109-122 | the gap starts anew at each choice on an idle channel whose gap is over, whether anybody waits or not, and at nothing else |
| `BusLaws.QuietForTheGap` | src/sync/channel.cpp:109-122 | in every run after such a choice nobody is triggered before another frame gap is over, even if nobody was waiting |
| `BusLaws.TimerFollows` | src/sync/channel.cpp:113-116 | the frame timer is started for the end of the gap by whatever comes to an idle channel too early, and fires once |
| `BusLaws.IdleIsAwake` | src/sync/channel.cpp:109-116 | an idle channel with somebody waiting has its timer due at the end of the gap, and a timer that fires then triggers somebody |
| `BusLaws.NeverTwiceRunning` | src/sync/channel.cpp:117-121 | nobody is granted the bus twice running while another waits |
| `BusLaws.PassedOverOnce` | src/sync/channel.cpp:117-121 | one of two users, or one of higher priority than all others, is passed over at most once running |
| `BusLaws.PassedOverTwice` | src/sync/channel.cpp:117-121 | a user with at most one rival of equal or higher priority is never passed over three times running |
| `BusLimits.TwoRivalsStarve` | src/sync/channel.cpp:117-121 | a user with two such rivals can wait through any number of grants, whatever the frame gap, as long as the clock lasts |
| `BusLaws.NoWorkLost` | src/modbus/modbusmaster.cpp:245-258 | in every run in which no trigger finds a disconnected master with work queued, all queued work is asked for or under way |
| `BusLaws.AskingRedeems` | src/modbus/modbusmaster.cpp:385-403 | a master that has lost its turn counts as dropped only until it asks again |
| `BusLaws.WorkLostExactly` | src/modbus/modbusmaster.cpp:245-250 | a trigger loses work exactly when it finds the master disconnected, with work queued and no other ask under way |
| `BusLimits.ReconnectForgets` | src/modbus/modbusmaster.cpp:233-243 | whatever the frame gap, a run after which a connected master has a read queued for which nothing is under way |
| `BusLimits.ForgottenUntilWoken` | src/modbus/modbusmaster.cpp:385-397 | such a read stays so through an event exactly when that is no write, no other read and no new connection attempt of the master |
| `BusLimits.StaysForgotten` | src/modbus/modbusmaster.cpp:385-397 | and so through every run without those, polls for the same read included |
| `RedisContexts.CacheWorker.Create` | src/async_context/contextmanager.h:40-46 | a context under the current handle, and the counter advanced |
| `RedisContexts.CacheWorker.ClearDone` | src/async_context/contextmanager.h:76-87 | the erasing loop removes exactly the contexts that are done |
| `RedisContexts.CacheWorker.Reply` | src/async_context/rediscachecontext.cpp:100-139 | the reply methods of the four contexts, with re-entrant starts and failures of the next command of a pack |
| `RedisContexts.CacheWorker.HandleCommand` | src/consumers/rediscacheconsumer.cpp:150-165 | an unsupported command or one redis does not take fails at once |
| `RedisContexts.CacheWorker.Command` | src/consumers/rediscacheconsumer.cpp:172-182 | onCommand, with the exception for packs that read objects; `RedisRuns.CommandBegins` says what it begins |
| `RedisContexts.CacheWorker.Message` | src/producers/rediscacheproducer.cpp:18-26 | onMsg clears done contexts and writes the object, or drops the message when no key is configured |
| `RedisContexts.CacheWorker.RequestObjectSimple` | src/consumers/rediscacheconsumer.cpp:140-148 | a poll creates its context and reads the object, when connected |
| `RedisContexts.CacheWorker.Callback` | src/consumers/rediscacheconsumer.cpp:70-78 | a callback throws exactly when its context is unknown; an empty object hash fails and then replies |
| `RedisRuns.InvariantKept` | src/async_context/contextmanager.h:40-46 | every command, message, poll and callback keeps each context running, finished or stuck |
| `RedisRuns.CommandBegins` | src/consumers/rediscacheconsumer.cpp:172-182 | in every run a command makes a context under the next handle and starts its first command, failing at once if it is unsupported or not taken, unless it is a pack that reads an object, which only uses up a handle |
| `RedisRuns.MessageBegins` | src/producers/rediscacheproducer.cpp:18-26 | in every run a message makes a context for its write exactly when an object key is configured |
| `RedisRuns.PollBegins` | src/consumers/rediscacheconsumer.cpp:140-148 | in every run a poll makes a context for its read exactly when redis is connected |
| `RedisRuns.AnswerGoesOn` | src/async_context/rediscachecontext.cpp:100-113 | an answer is recorded as the outcome of the command in flight; a good one starts the next command of a pack, after any other nothing is in flight |
| `RedisRuns.HandlesAreSafe` | src/async_context/contextmanager.h:59-60 | in every run a command in flight finds its context present, not done, and alone in flight |
| `RedisRuns.HandlesAreNew` | src/async_context/contextmanager.h:151-155 | a new context gets a handle no context had before, until the counter wraps |
| `RedisRuns.NotDoneWaits` | src/async_context/rediscachecontext.cpp:127-133 | a context that is not done waits for exactly one command, unless it is that of a failed read for a plain message |
| `RedisRuns.StuckForever` | src/async_context/rediscachecontext.cpp:127-133 | the context of such a read stays for ever |
| `RedisRuns.PackRepliesOnce` | src/async_context/rediscachecontext.cpp:100-113 | a pack sends exactly one reply pack with one reply per command, starts its commands in order up to the first failure, and is ok exactly when all succeeded |
| `RedisRuns.SingleReplies` | src/async_context/rediscachecontext.cpp:120-125 | a single command is replied to once with its outcome, but for a read that met an empty hash |
| `RedisRuns.PlainReplies` | src/async_context/rediscachecontext.cpp:127-139 | a read for a plain message sends the object on once if it succeeds, and a write sends nothing |
| `RedisRuns.RepliesOnceExactly` | src/consumers/rediscacheconsumer.cpp:70-78 | an answer makes one reply exactly when it is no empty hash, which makes two |
| `ReplyDispatch.CallbackTellsTheTruth` | src/broker/workers/worker.cpp:252-273 | the success callback runs exactly when every command of the pack was started and succeeded, else the failure callback |
| `ReplyDispatch.SingleTellsTheTruth` | src/broker/workers/worker.cpp:252-273 | each reply to a single command runs the success callback exactly when its outcome was a success: after an empty hash first the failure and then the success callback |
| `ReplyDispatch.OtherwiseHandedOver` | src/broker/workers/worker.cpp:257-273 | which requesters have no callback run and are handed the reply or never see it |
| `ReplyDispatch.EntriesMatchCommands` | src/broker/replies/basicreplies.cpp:77-81 | entry i of the reply pack is ok exactly when command i was started and succeeded |
| `PipeParsing.ParseFunc` | src/private/parsing_private.cpp:3-36 | the counting loop reads the arguments of the recursive reader, or throws without a word character |
| `PipeParsing.ParsePrint` | src/private/parsing_private.cpp:3-36 | printing a call with clean arguments and parsing it gives the call back, unless it holds no word character |
| `PipeParsing.PrintParse` | src/initialization.cpp:227-231 | printing a parsed well-formed call strips spaces from its arguments and changes nothing else; parsing again gives the same call |
| `PipeParsing.TrailingIgnored` | src/private/parsing_private.cpp:8-35 | what follows the closing parenthesis is ignored as long as no parenthesis is opened in it |
| `PipeParsing.SecondPairIsArgument` | src/private/parsing_private.cpp:8-35 | a second pair of parentheses adds an argument that begins with the closing one of the first |
| `PipeParsing.BareNameGainsArgument` | src/private/parsing_private.cpp:8-35 | a bare name printed and parsed again has gained an empty argument |
| `PipeParsing.FirstIsClean` | src/private/parsing_private.cpp:16-34 | whatever the text, a first argument that is read is balanced, free of spaces and of outer commas |
| `Bidirectional.MakePipe` | src/initialization.cpp:221-266 | the generated pipe of one direction, or an exception exactly when some step cannot be parsed or translated |
| `Bidirectional.Translated` | src/initialization.cpp:227-261 | the step printed for each of the five functions in each direction: a branch unwraps or wraps, renamings are turned round on the way back, block and allow stay |
| `Bidirectional.PipePrints` | src/initialization.cpp:221-266 | the pipe is made exactly when every step is empty or a supported call; it has the steps in the order written, or in the opposite order on the way back |
| `Bidirectional.WorkerMsg.Intercept` | src/interceptors/namespacewrapper.cpp:27-35 | wrapper and unwrapper replace the JSON in place and forward exactly messages with a leaf |
| `Bidirectional.WorkerMsg.Pass` | src/broker/workers/worker.cpp:358-373 | a message passes the interceptors in order until one does not forward it |
| `Bidirectional.UnwrapWrap` | src/interceptors/namespaceunwrapper.cpp:27-33 | unwrapping a wrapped message gives it back, and wrapping keeps whether it has a leaf |
| `Bidirectional.ThereAndBack` | src/initialization.cpp:262-268 | wrapping in reverse order and unwrapping in order is the identity exactly when there is nothing to do or the message has a leaf |
| `Bidirectional.BranchMakes` | src/initialization.cpp:68-80 | the step printed for a branch makes the interceptor of the path the branch was written with |
| `Bidirectional.BranchesInvert` | src/initialization.cpp:221-269 | for any list of branches the inverted pipe followed by the normal one returns a message as it was exactly when it has a leaf or there is no branch |
| `Pipeline.PipeOperation.HandleSplitter` | src/private/pipeoperation.cpp:11-31 | throws exactly on an unknown splitter, a change of direction, or a second bidirectional one, said splitter by splitter |
| `Pipeline.PipeOperation.Reset` | src/private/pipeoperation.cpp:4-9 | every field is emptied |
| `Pipeline.InitPipeline` | src/initialization.cpp:303-334 | the token loop turns the line into exactly the operations of the recursive reader, or throws where that fails |
| `Pipeline.StripsStars` | src/initialization.cpp:325-327 | a step loses its stars, all of them, and nothing else |
| `Pipeline.ReadsAsWritten` | src/initialization.cpp:303-334 | a line of workers, steps and splitters is read as the operations it was written for |
| `Pipeline.LineIsRead` | src/initialization.cpp:303-334 | a line is read exactly when neither end is a step, every splitter is known, and after a step the same one-way splitter comes again |
| `Pipeline.ConnectAll` | src/initialization.cpp:275-292 | the connections of a list of operations, those of bidirectional ones included, or an exception |
| `Pipeline.LineConnects` | src/initialization.cpp:275-334 | segment by segment a line connects what it shows: left to right for " > ", right to left through the reversed steps for " < ", both ways through the two pipes of a bidirectional splitter |
| `Pipeline.BackwardsConnectsAlike` | src/initialization.cpp:275-292 | written from its other end with every splitter turned round, a line makes the same connections, last to first |
| `Routing.Worker.AddConsumer` | src/broker/workers/worker.cpp:147-159 | the mutually recursive registration ends with each in the other's set, and throws exactly when this worker has started, or the other has and did not know it |
| `Routing.Worker.AddProducer` | src/broker/workers/worker.cpp:161-172 | the mutually recursive registration from the consumer ends in the same state |
| `Routing.Broker.RegisterWorker` | src/broker/broker.cpp:81-101 | refuses exactly empty and occupied names |
| `Routing.Broker.ConnectTwo` | src/broker/broker.cpp:205-248 | refuses exactly started workers, forbidden self-connections, duplicates and what a role prohibits, the last with the pipe already wired; keeps consumers, producers and the connection list in agreement |
| `Routing.Broker.ConnectNames` | src/broker/broker.cpp:156-182 | by names, refusing as well missing workers and interceptors |
| `Routing.Broker.Send` | src/broker/broker.cpp:49-67 | who handles a message that a worker sends: through its pipes, and through the broadcast |
| `Routing.OnceExactly` | src/broker/broker.cpp:49-67 | delivery is exactly-once exactly when emitter and named sender have the same consumers among the registered receivers |
| `Routing.DeliveredOnce` | src/broker/broker.cpp:58-60 | in any network built by connectTwo a message emitted by its sender is handled once by each receiver and by nobody else, exactly when no role has refused to connect the sender to a receiver |
| `Routing.ForwardedOnceExactly` | src/broker/broker.cpp:58-60 | the condition for a message emitted on behalf of another sender |
| `Routing.TwiceOrNever` | src/broker/broker.cpp:58-60 | two networks in which such a message is handled twice, and not at all |
| `Routing.PreparedReachesConsumers` | src/broker/workers/worker.cpp:179-185 | a prepared message reaches each consumer once through its pipe, and nobody through the broadcast |

## Left out

- `JsonDict::take` and `JsonDict::remove`, whose type tests are inverted, and the const `merge`, which ignores its object.
- Merging a document into itself, where the loop would change what it iterates over: documents passed as arguments are values here.
- `JsonDict.JsonDict.Insert`: assembles the opened containers into a new value and assigns it at the top, where the program writes through references; a list index below -1, for which the program reads outside the list, counts as refused.
- `JsonDict.JsonDict.Flattened`: separators of one character, as for `nest` and `split`.
- JSON text, printing, and the variants of `insert` and `value` that only convert their arguments.
- Conversions between QVariant types: a value is either of the register's type or encoded as the invalid unit, leaf values compare by plain equality, and the rounding of a float register in a coil table is not modelled.
- Unsupported register types, which make `parseModbusType` throw.
- `JsonLaws.NestFlattenIsSanitized`: for documents in which no key on the way to a leaf holds the separator.
- `JsonNest.NestMoves`: for split keys that spell list indices as the iterators do, and an entry whose split key lies on no other's path; where they overlap the later key in order writes over or into the earlier.
- `JsonNest.NestThrows`: for split keys that part pairwise; where they overlap it depends on the values already inserted.
- Register names are keys of a flat map in `ModbusScan`; the nested JSON they split into is not built there.
- `ModbusUnits.UnitList.SortAndMergeDataUnits`: sorts stably, where `std::sort` leaves the order of equal starts open; with distinct starts there is no difference.
- `ModbusMerge.CellsConserved`: distinct starts are shown to suffice, not to be necessary; which lists with equal starts keep all their words depends on their order.
- `ModbusPoll.PollDecodesSingles`: for devices without overlapping registers; where registers overlap, a two-word register can be read with the word of the next one.
- Rewriting of registers after failed writes (`Master::updateCurrent` and the value checks of `Master::write`).
- `Channel.Channel.AskTrigger`: stated for registered users, which is what masters are when they ask; an ask of another object would create a nameless user.
- Destruction of channel users, and the one-second debug timer of the channel.
- `BusLaws.GrantsApart`: for a clock that does not run backwards and stays below 2^63 milliseconds, and a frame gap below 2^31.
- Disconnection of redis workers (`onDisconnect` and `ContextManager::forEach`), subscriptions, and the texts of redis commands.
- `RedisRuns.HandlesAreNew`: until the 64-bit counter wraps.
- A sent reply does not call back into the worker that sends it before the worker has returned.
- Callbacks that were never set: they are taken to belong to no worker, although their owner is not initialised.
- Interceptors other than wrap and unwrap: renaming and remapping pipes never forward, and the others are filters.
- `Bidirectional.BranchesInvert`: for branch paths without a negative list index, for which the path write is not defined.
- `Pipeline.ReadsAsWritten`: for steps whose text holds no further `*`, all of which the program strips.
- `Pipeline.BackwardsConnectsAlike`: for lines without bidirectional splitters.
- The regular expressions that cut a pipeline line into tokens, and tokens that are empty.
- `Routing.ForwardedOnceExactly`: for emitters that no role has refused a connection.
- Disconnecting or destroying workers, and changing a role after the worker is made.
- `Routing.DeliveredOnce`: for pipes whose interceptors forward the message; those that drop it drop it for their consumer.
- Threads and locks: every event runs to its end before the next.
