# TinyRed in Dafny

TinyRed is a Redis server written in Go. This project models the parts of it that keep invariants
across many operations, and proves those invariants for every input and every run:

- the ranked skip list behind sorted sets (`SkipLists`, over `Order` and `SortedSeq`), the sorted set
  that pairs it with a member-to-score map (`ZSets`), and both over whole runs (`Coherence`);
- the store as an object, with lists that hand values to blocked clients (`Keyspace`, `Stores`), and
  the blocking pop as a concurrent protocol (`BlockingPop`);
- the command table and its handlers as functions of the store (`Commands`), the table row by row
  (`Table`), and what the commands answer, alone and one after the other (`Answers`);
- WATCH, MULTI, EXEC and DISCARD over any number of clients (`Transactions`, `Isolation`), when EXEC aborts
  read off the requests and the handlers that ran (`Touches`), what a client's mode does to its requests
  (`Sessions`), and the same session state updated in place (`Servers`);
- the handlers a run executed, in order (`History`), which the run-long theorems about sorted sets and
  logs are about;
- the RESP codec (`Resp`), the append-only file (`Aof`), what its replay rebuilds (`Replay`, `Logs`,
  `Orderly`), a replica that consumes its master's stream (`Replication`), and runs that show what goes
  wrong (`Examples`);
- the geohash of GEOADD and GEOPOS (`Morton`, `Geo`), and the RDB format (`Rdb`, `RdbLoader`);
- the formats byte by byte and a known position (`Samples`);
- number formatting and letter case (`Text`), and what parsers return (`Parsing`).

`dafny verify dfyconfig.toml` checks everything.

## How the model is built

Code that changes things in place is a class: `SkipLists.SkipList` has real nodes whose links and spans
are overwritten level by level, `ZSets.ZSet` owns one, `Stores.Store` holds sorted sets on the heap and
queues of waiter objects, `Servers.Server` holds client objects, and the readers of RESP and RDB advance
one input. Each method is proved against a function on values, and the long-range theorems are about
those functions. A method of the source with several loops is split into one method for each loop.

- A score is a real number or an infinity. NaN, on which `less` is not an order, is excluded.
- A Go string is a sequence of bytes; here it is a Dafny string whose characters stand for bytes. Only
  `Rdb` needs the byte values, and says where.
- `randomLevel` is a parameter: every theorem about the skip list holds for all heights in 1..16.
- The clock, float parsing, the geohash of a position and the position of a score, and the replies of the
  other commands that only read the store are parameters of a step (`Commands.Env`); `Geo` ties the two
  geohash parameters to `Morton`.
- One command of one client is one step. `BlockingPop` is finer: push, pop, block, receive, timer and
  leaving the queue are separate steps.
- A run is any sequence of connections, closings and commands; a command of a client that is not
  connected does not happen.

Definitions that both a method and its theorems use are tied down by statements that do not use them: the
order of scores by numbers (`Order.LessRanksFirst`), pushes by position (`Keyspace.PushKeepsOrder`), the events
of a run by its requests and handlers (`Touches`), the acknowledged requests by letters
(`Replication.GetAckIsAnswered`), the table by names and numbers (`Table`), and formats by bytes (`Samples`).

## What turned out false, and exactly when

- A ZADD that creates its key keeps map and skip list together exactly when no member is named twice in
  it, and only then reports the growth of the map (`ZSets.CreateCoherent`, with
  `ZSets.RepeatedMemberBreaksCreate`). Nothing done to the set later changes that, so in every
  reachable state a set is coherent exactly when its creation was (`Coherence.RunCoherent`).
- ZRANGE does not do what the comment at `server/commad_handlers.go:507` says: it clamps a start at or
  past the end to the last element. `ZSets.RangeVersusDocumented` gives the exact condition and
  `ZSets.StartPastTheEndIsClamped` an input.
- A write is logged and propagated even when it failed or was only queued, so a log does not always
  rebuild its store: a write that was queued and discarded comes back
  (`Examples.DiscardedWriteComesBack`), and a failed one is an error on replay
  (`Examples.FailedWriteStops`). Over all runs without expiries it rebuilds the store exactly when the
  writes in order of arrival make the store that the writes in order of execution made
  (`Logs.LogRebuildsExactly`); a tidy run, in which transactions with queued writes are neither given up
  nor interleaved with other writes, exactly when no write failed (`Orderly.LogRebuildsStore`). The same
  two conditions decide whether a replica follows its master (`Replication.ReplicaFollowsExactly`,
  `Replication.ReplicaFollowsMaster`).
- GEOPOS can be off by a latitude cell, but only at longitude 180 (`Morton.PositionRoundTrip`,
  `Morton.MaximumLongitudeIsOff`).

## Model

| member | source | states |
|---|---|---|
| Order.LessTotal | store/skip_list.go:40-45 | any two different pairs are ordered one way or the other |
| Order.LessTransitive | store/skip_list.go:40-45 | the order of pairs is transitive |
| Order.LessIrreflexive | store/skip_list.go:40-45 | no pair is below itself |
| Order.LessRanksFirst | store/skip_list.go:40-45 | a pair ranks before another if and only if its score is the lower number, an infinity being below or above all others, or the scores are equal and its member is a proper prefix of the other or has the smaller byte where they first differ |
| SortedSeq.SortedUnique | store/skip_list.go:21-24 | two sorted sequences with the same pairs are the same sequence, so the ranked contents do not depend on the order of insertions |
| SortedSeq.InsertKeepsSorted | store/skip_list.go:47-87 | the specified insertion keeps the sequence sorted and adds exactly one copy of the pair |
| SortedSeq.RemoveKeepsSorted | store/skip_list.go:89-116 | the specified removal keeps the sequence sorted |
| SortedSeq.RemoveTakesOne | store/skip_list.go:89-116 | the specified removal takes away exactly one copy of the pair, and nothing when it is absent |
| SortedSeq.SortedDistinctIsStrict | store/skip_list.go:40-45 | a sorted sequence in which no pair repeats is strictly ascending, as level 0 is when only absent pairs are inserted |
| SkipLists.LevelIsSublist | store/skip_list.go:10-24 | following level l of a well-linked list visits exactly the nodes taller than l, in rank order |
| SkipLists.InsertWellLinked | store/skip_list.go:73-83 | relinking the 16 predecessors as the two loops of Insert do keeps every forward pointer and every span right, the span of a nil forward being the distance to the end |
| SkipLists.DeleteWellLinked | store/skip_list.go:106-113 | relinking as the loop of Delete does keeps every forward pointer and span right without the target |
| SkipLists.PointsAtTarget | store/skip_list.go:107-112 | the pointer comparison in Delete succeeds exactly at the levels the target reaches |
| SkipLists.NotCrossing | store/skip_list.go:73-83 | before the insertion rank, only the recorded predecessors have links across it |
| SkipLists.SearchStops | store/skip_list.go:52-64 | nodes where the descent stopped split the list at the target and are the crossing nodes of all 16 levels |
| SkipLists.SkipList.constructor | store/skip_list.go:26-30 | a new list is well formed and empty |
| SkipLists.SkipList.FindPredecessors | store/skip_list.go:48-64 | the descent finds, at every level, the last node below the target and its rank, and the place where the pair belongs |
| SkipLists.SkipList.Insert | store/skip_list.go:47-87 | for every height, the list stays well formed and its pairs are the sorted sequence with the pair inserted; the new node is the one returned |
| SkipLists.SkipList.SpliceIn | store/skip_list.go:73-79 | the first loop of Insert links the node into every level it reaches with exact spans |
| SkipLists.SkipList.SpliceAt | store/skip_list.go:74-78 | one round of that loop: the predecessor's span is cut at the new node, which takes the rest of it |
| SkipLists.SkipList.WidenAbove | store/skip_list.go:81-83 | the second loop widens the crossing span of every higher level by one and nothing else |
| SkipLists.SkipList.Delete | store/skip_list.go:89-116 | the list stays well formed; the pair is removed and true returned exactly when it was there |
| SkipLists.SkipList.UnlinkLevels | store/skip_list.go:106-113 | the loop of Delete bypasses the target at its levels and narrows the crossing spans above |
| SkipLists.SkipList.GetRank | store/skip_list.go:118-133 | one plus the number of smaller pairs when the pair is there, else 0 |
| SkipLists.SkipList.GetByRank | store/skip_list.go:135-151 | the node at that rank for ranks 1..Length, else nil |
| SkipLists.SkipList.Range | store/skip_list.go:153-170 | the slice of the ranked nodes between the clamped bounds, in order |
| ZSets.CreateCoherent | store/store.go:265-279 | a creating ZADD leaves map and skip list with the same pairs exactly when no member repeats; only then is its count the size of the map |
| ZSets.RepeatedMemberBreaksCreate | store/store.go:270-274 | a concrete batch that names a member twice leaves them different |
| ZSets.RepeatingCreateIsBroken | store/store.go:270-274 | every creation that names a member twice leaves a list with pairs the map does not have |
| ZSets.UpsertKeepsBroken | store/store.go:291-301 | no later ZADD mends such a set |
| ZSets.RemKeepsBroken | server/commad_handlers.go:529-540 | and no ZREM does |
| ZSets.UpsertCoherent | store/store.go:291-301 | ZADD on an existing set keeps map and skip list together whatever members repeat, and its count is the growth of the map |
| ZSets.UpsertScores | store/store.go:291-301 | the scores afterwards are the batch laid over the map, last score of a member winning |
| ZSets.RemCoherent | server/commad_handlers.go:529-540 | ZREM keeps map and skip list together, removes just that member, and reports whether it was there |
| ZSets.RankCountsSmaller | server/commad_handlers.go:445-452 | on a coherent set the rank of a member is the number of members that rank before it, by number and then by first different byte |
| ZSets.CoherentLength | server/commad_handlers.go:492-499 | on a coherent set the map and the list have the same size, so ZRANGE clamps against the right length |
| ZSets.CoherentIsStrict | store/store.go:24-27 | no pair of a coherent set repeats: the ranked pairs are strictly ascending |
| ZSets.RankedScoresAscend | store/skip_list.go:40-45 | in the ranked pairs of any coherent set finite scores never go down as numbers, minus infinity comes first and plus infinity last, and members with equal scores come in byte order of their first difference, a prefix first |
| ZSets.RankIsPlace | store/skip_list.go:118-133 | the pair at place k of a coherent set is one of the map, and k pairs of the map rank before it |
| ZSets.RangeIsRanked | server/commad_handlers.go:492-506 | what ZRANGE answers are members of the ranks from the normalised start on, one after the other: before the i-th rank start + i pairs of the map |
| ZSets.RangeVersusDocumented | server/commad_handlers.go:492-513 | ZRANGE answers the slice its comments describe exactly when it is not (start at or past the end of a non-empty set, and stop reaching the last element) |
| ZSets.StartPastTheEndIsClamped | server/commad_handlers.go:492-513 | a concrete ZRANGE whose start is past the end and that answers with the last member |
| ZSets.CoherentRange | server/commad_handlers.go:492-499 | on a coherent set the slice by the size of the map is the slice by the length of the list |
| ZSets.ZSet.Fill | store/store.go:265-274 | the creating loop leaves the map and ranked pairs of the specified creation, for all heights |
| ZSets.ZSet.AddAll | store/store.go:291-300 | the updating loop leaves the specified map and ranked pairs and counts the members it added |
| ZSets.ZSet.AddNext | store/store.go:291-300 | one round of that loop, with the counter |
| ZSets.ZSet.Set | store/store.go:292-299 | one pair: the old pair of the member is deleted before the new one goes in, and whether the member is new |
| ZSets.ZSet.Remove | server/commad_handlers.go:533-540 | map and list after ZREM of a member, and whether it was there |
| ZSets.ZSet.Rank | server/commad_handlers.go:445-452 | no rank for a member the map does not have; on a coherent set the 0-based rank is the number of pairs of the map that rank before it; on any set it is its place in the list, or -1 when the pair is not there |
| ZSets.ZSet.RangeMembers | server/commad_handlers.go:492-506 | the members of the slice, in rank order, with indices normalised by the size of the map and clamped by the length of the list, also when the two differ; on a coherent set the ZRANGE slice, whose i-th member has rank start + i |
| Coherence.ZAddCoherent | store/store.go:262-308 | ZAdd keeps the key's set coherent if and only if it did not create it with a repeated member |
| Coherence.ZAddReportsGrowth | store/store.go:262-308 | the reported number is the growth of the map under the same condition |
| Coherence.CommandCoherent | server/commad_handlers.go:389-424 | any command of the table keeps every sorted set of the store coherent if and only if it is not such a creation |
| Coherence.HistorySet | store/store.go:262-308 | over any chain of successful commands, the set at a key is coherent or broken for good, by whether the last command to make it repeated a member |
| Coherence.RunCoherent | server/server.go:482-535 | in every reachable state of any number of clients, the sorted set a key holds is coherent if and only if the command that made it, direct or inside an EXEC, was not a ZADD that named a member twice |
| Keyspace.ListPushServes | store/store.go:193-245 | on a list or absent key, in both directions, ListPush is: push all values, then serve waiters oldest first by left pops; contents, queue, sends and length |
| Keyspace.PushServesInOrder | store/store.go:197-209 | by position: the i-th waiter gets the i-th value of a right push and the i-th from the end of a left push, as many as there are waiters and values |
| Keyspace.PushKeepsOrder | store/store.go:222-244 | by position: the values no waiter took are after the old items in order, or, on the left, each before the ones given earlier and all before the old items |
| Keyspace.ListPushKeepsInvariant | store/store.go:193-245 | a key with waiters never holds list elements, kept by every push |
| Keyspace.ListPushFrame | store/store.go:193-245 | no other key or queue changes, and a failed push changes no entry |
| Stores.Store.constructor | store/store.go:67-72 | a new store is well formed and empty |
| Stores.Store.ZAdd | store/store.go:262-308 | on heap-allocated sets that share no object: the store becomes that of the specified ZAdd, other keys' sets untouched; error and no change on another type |
| Stores.Store.ZRem | server/commad_handlers.go:515-546 | the same for ZREM: the missing key, the wrong type and the removal |
| Stores.Store.AbsElsewhere | store/store.go:172-186 | an update of one key's objects leaves the abstract entry of every other key as it was |
| Stores.Store.ListPush | store/store.go:193-245 | the store, queues and result are those of the specified push; every send found an empty channel and each waiter holds exactly its value |
| Stores.Store.Serve | store/store.go:201-209 | the serving loop hands the i-th value to the i-th waiter and keeps the rest |
| Stores.Store.Extend | store/store.go:222-244 | the list is created or extended at the right end, or the type error is returned and nothing changes |
| Stores.Store.AddWaiter | store/store.go:74-81 | the new waiter is last in its key's queue, with an empty channel |
| Stores.Store.RemoveWaiter | store/store.go:87-105 | the waiter leaves its queue, the order of the others is kept, an emptied queue is dropped, and nothing happens when it was already served |
| Stores.Store.BLPop | store/store.go:130-158 | the first element is taken, or the client queues on an empty or absent key, or the type error |
| BlockingPop.RunIsSafe | store/store.go:74-158 | in every interleaving each waiter is sent at most one value, one off the queue has its value ready, clients are served in order of arrival, waiters mean an empty list, and every copy of a value is in exactly one of list, channel, result, pop or dropped |
| BlockingPop.StepConserves | store/store.go:106-158 | every step conserves every value |
| BlockingPop.StepInv | store/store.go:106-158 | every step keeps the protocol invariant |
| BlockingPop.PushNeverBlocks | store/store.go:197-209 | in every reachable state, whoever a push serves has an empty channel and was never sent to, so the send under the mutex does not block; afterwards the channel of the i-th one holds exactly the i-th value, counted from the end for a left push |
| BlockingPop.RunDropsExactly | store/store.go:117-124 | in any interleaving something was dropped if and only if a waiter whose channel was full completed its timeout |
| BlockingPop.NothingIsLost | store/store.go:106-158 | without such a timeout every pushed value is in the list, in a channel, in a result or was popped |
| BlockingPop.PushServes | store/store.go:193-245 | a push of the protocol is push-then-serve, as ListPush is |
| BlockingPop.FirstInFirstOut | store/store.go:130-158 | over every interleaving whose pushes are right pushes, the values taken off a key, by pops and by blocked clients together, and then its items are all pushed values in the order they were pushed |
| BlockingPop.KeysAreIndependent | store/store.go:74-104 | an interleaving over many keys is, key by key, a run of that key alone |
| BlockingPop.RunKeysIsSafe | store/store.go:74-158 | the safety and conservation of RunIsSafe at every key of any interleaving over many keys |
| Commands.WriteFrame | server/server.go:516-518 | a successful write changes at most the key in its first argument |
| Commands.ReadFrame | server/commad_handlers.go:1153-1177 | other commands change no entry, except that GET drops one it finds expired |
| Commands.KeepsNoExpiry | server/commad_handlers.go:1099-1151 | commands without expiry options leave a store without expiries that way |
| Commands.ClockDoesNotMatter | server/commad_handlers.go:1099-1151 | a write without expiry options does the same at any time |
| Commands.ReadsChangeNothing | server/server.go:420-455 | without expiries, commands that are not writes leave the store as it is |
| Table.NameOfRow | server/server.go:420-455 | every name of the table has its command |
| Table.NumbersOfRow | server/server.go:420-455 | the least and greatest numbers of arguments of every row |
| Table.KindOfRow | server/server.go:420-455 | which rows write, and which work on the session |
| Table.NameDecides | server/server.go:420-455 | no other name has a handler, and none has two; the nine writes and the five session commands by name |
| Table.AcceptedByRow | server/server.go:482-497 | a request gets past the checks on name and number of arguments if and only if the table has a row for it |
| Answers.SetAnswers | server/commad_handlers.go:1099-1151 | SET succeeds if and only if the value is followed by pairs of PX or EX, in any letter case, and a number; the last pair decides the expiry, in milliseconds or seconds from now |
| Answers.GetAnswers | server/commad_handlers.go:1153-1177 | GET never fails, answers the text of an entry that has not expired, and drops one that has |
| Answers.SetThenGet | server/commad_handlers.go:1099-1177 | a value that was set is read back at any time up to its expiry, and after it the key is gone |
| Answers.IncrAnswers | server/commad_handlers.go:773-820 | INCR succeeds if and only if the key is absent or holds the text of a 64-bit number; it leaves and answers the next one, wrapping around, and keeps the expiry |
| Answers.IncrCounts | server/commad_handlers.go:773-820 | after n INCRs on an absent key it holds n and the last answer was n, for every n below 2^63 |
| Answers.PushAnswers | server/commad_handlers.go:946-958 | RPUSH and LPUSH succeed if and only if the key is absent or holds a list, and answer the new length |
| Answers.PushedItem | store/store.go:222-244 | every item of the list after a push by position in the arguments |
| Answers.LPopAnswers | server/commad_handlers.go:882-944 | when LPOP fails, how many elements it takes off the front, and that it answers these in order, or null for none |
| Answers.PopUndoesPush | server/commad_handlers.go:882-960 | LPOP of as many elements undoes an LPUSH and answers its values, the last one first |
| Answers.BLPopAnswers | server/commad_handlers.go:822-854 | BLPOP that finds an element takes the first one and answers it with its key; when it fails |
| Answers.PairsRead | server/commad_handlers.go:389-413 | ZADD reads every pair of its arguments in order, or none if one has no number or no member |
| Answers.ZAddAnswers | server/commad_handlers.go:389-424 | ZADD succeeds if and only if its arguments are such pairs and the key is absent or holds a sorted set; it answers the growth of the scores, or the number of pairs on an absent key |
| Answers.ZAddStores | server/commad_handlers.go:389-424 | each member it names has the score before its last mention |
| Answers.ZAddKeeps | server/commad_handlers.go:389-424 | members it does not name keep their score, or stay out |
| Answers.ZRemAnswers | server/commad_handlers.go:515-546 | ZREM fails on another type only, takes just the member out of the scores, and answers whether it was there |
| Answers.GeoPosAnswersEach | server/commad_handlers.go:144-194 | GEOPOS fails on another type only, and answers for each member asked, in order, the point of its score or none |
| Answers.WritesKeepExpiry | store/store.go:222-244 | every write but SET keeps the expiry of the entry it works on, gives none to a new one, and removes no entry |
| Answers.ReadAnswers | server/server.go:498-515 | every other command answers what the store says and leaves it |
| Transactions.TrackedWatches | server/commad_handlers.go:727-739 | the watched keys, folded over the events, are those watched and not cleared since |
| Transactions.TrackedDirty | server/server.go:520-533 | the dirty flag, folded over the events, is set exactly when a write named a key after it was watched and before the watch was cleared |
| Transactions.StepInv | server/server.go:760-919 | every step keeps the watcher index two-way and duplicate-free and the flags equal to what the events say |
| Transactions.ReachableInv | server/server.go:547-567 | in every reachable state watcher lists are duplicate-free, a live client is listed exactly under its watched keys, and no list names an id still to be given out |
| Transactions.NewcomerIsUntracked | server/server.go:547-567 | a client whose id is above every id the events name starts with no watches and a clean flag, so ids left behind by closed connections never speak for it |
| Transactions.AbortsExactlyWhenTouched | server/server.go:823-849 | by the events of the run: EXEC aborts if and only if a write event named a watched key after the watch and before it was cleared, over every run of any number of clients |
| Touches.EventsAreDeeds | server/server.go:482-535 | the events of any run, in order, are a watch for each key of a WATCH outside a transaction, a clearing for each UNWATCH outside one, each DISCARD and EXEC inside one, and a write for each handler of one of the nine writes that succeeded, directly or in an EXEC |
| Touches.WroteEventsAreWrites | server/server.go:516-518 | the keys of the write events are, in order, the first arguments of the writes among the handlers that ran and succeeded |
| Touches.StepFollows | server/server.go:516-534 | what one request of anyone does to the watches and the flag of a client: its own clearing ends both, its WATCH adds keys, and a write that succeeds on a watched key, and nothing else, sets the flag |
| Touches.ReadOffDeeds | server/commad_handlers.go:714-744 | after any part of any run a client watches exactly the keys with a WATCH of its own and no clearing since, and is dirty exactly when a write that succeeded was given one of them in between |
| Touches.AbortsExactlyWhenHit | server/server.go:808-849 | by the requests of the run and the handlers that ran, without events: EXEC aborts if and only if a write that succeeded, direct or inside an EXEC of anyone, was given a key that the client had watched before, with no UNWATCH, DISCARD or EXEC of its own since |
| Touches.ExecAnswers | server/server.go:823-877 | the client gets the null array when EXEC aborts, and otherwise the replies |
| Sessions.QueuedInside | server/server.go:507-515 | inside a transaction every request with a row of the table is appended to the queue, answered QUEUED and changes nothing else, except that MULTI and WATCH fail and DISCARD ends it |
| Sessions.MultiOpens | server/commad_handlers.go:745-771 | outside one MULTI opens it for that client only, and DISCARD fails |
| Sessions.WatchAnswers | server/commad_handlers.go:706-744 | outside a transaction WATCH of any keys and UNWATCH are answered OK |
| Sessions.SubscribedRefuses | server/server.go:792-806 | a subscribed client gets an error for every request but six, and nothing happens |
| Sessions.SubscribedMay | server/server.go:792-806 | and those six are executed |
| Sessions.LoggedAs | server/server.go:901-908 | exactly the requests of the nine writes are logged, under their names in capitals, with their arguments |
| Sessions.LoadingAllows | server/server.go:498-506 | a replica that is still loading lets through only INFO, CONFIG, ECHO and PING, and what would fail anyhow |
| Transactions.UnwatchInv | server/server.go:706-729 | UnwatchAll takes the client off every list and keeps the invariant |
| Transactions.WatchKeysInv | server/commad_handlers.go:714-744 | WATCH of any keys, repeated or not, keeps the invariant |
| Transactions.MarkDirtyInv | server/server.go:519-533 | marking the watchers of a written key keeps the invariant |
| Isolation.ReachableQueues | server/server.go:507-515 | in every reachable state no queue holds multi, exec, discard or watch, an unknown command or a wrong argument count, and a client outside a transaction has an empty queue |
| Isolation.ExecIsFold | server/server.go:833-849 | an EXEC that does not abort is the in-order fold of its queue over the handlers, one reply each, and nothing is queued again |
| Isolation.StepKept | server/server.go:516-534 | a step that leaves a watcher clean leaves its watched key the entry it had, up to expiry |
| Isolation.WatchedKeysKeepTheirEntries | server/server.go:808-849 | from the moment a key is watched to any later moment at which its watcher is clean, EXEC included, it holds the same entry, up to lazy expiry |
| History.RunChained | server/server.go:482-535 | the store of any run is what the handlers that ran and succeeded made of it, each starting where the one before it ended |
| Servers.Server.constructor | server/server.go:384-480 | a new server has no client and no watcher, and is ready or not as its role says |
| Servers.Server.LeaveLists | server/server.go:709-725 | the loop of UnwatchAll, in any order of the keys, takes the id off exactly the watched lists and drops emptied ones |
| Servers.Server.UnwatchAll | server/server.go:706-729 | the session state becomes that of the specified unwatch |
| Servers.Server.ResetTransactionState | server/server.go:731-734 | watches, flag, queue and mode are reset, for that client only |
| Servers.Server.Watch | server/commad_handlers.go:724-739 | the loop of WATCH adds the keys to the client and the client, once, to their lists |
| Servers.Server.LiveWatchers | server/server.go:519-526 | the collected watchers are exactly the live clients on the key's list |
| Servers.Server.MarkDirty | server/server.go:519-533 | exactly those clients become dirty |
| Servers.Server.Execute | server/server.go:482-535 | state and reply are those of the specified Execute: unknown command, arity, queueing, handler, dirty marks; a replica that is still loading refuses, changing nothing, all but INFO, CONFIG, ECHO and PING |
| Servers.AllowedOpensNothing | server/server.go:498-506 | what a loading replica answers opens no transaction |
| Servers.Server.Exec | server/server.go:823-849 | abort, or the specified run of the queue, with its replies |
| Servers.Server.ExecRequest | server/server.go:808-877 | EXEC without MULTI, aborted, or run: state and response |
| Servers.Server.RunQueue | server/server.go:838-849 | the EXEC loop: state and replies after the queue, command by command |
| Servers.Server.HandleRequest | server/server.go:792-919 | one request is one step of the specified machine, with the log it writes and the response the client gets; a request refused while loading is logged if it is a write, and no transaction is open before the node is ready |
| Servers.Server.AddClient | server/server.go:547-567 | a new client gets the next id and a fresh session, and opens no transaction |
| Servers.Server.CloseConnection | server/server.go:678-686 | the client is gone, and its id stays on the lists it was on |
| Text.ParseIntOfItoa | resp/resp.go:151-158 | parsing a printed number gives it back exactly when it fits |
| Text.LowerOfUpper | server/server.go:180-183 | a lower-cased name comes back from its upper-case form |
| Resp.RoundTrip | resp/resp.go:160-223 | decoding an encoded command before any trailing bytes returns the arguments and leaves the trailing bytes, if and only if the lengths fit the parser |
| Resp.UniqueReading | server/server.go:751-759 | two lists of commands with the same bytes are the same list |
| Resp.Reader.Header | resp/resp.go:131-149 | one line is consumed, or the specified error |
| Resp.Reader.BulkString | resp/resp.go:259-293 | value, input left and errors of the specified reader, also for negative lengths |
| Resp.Reader.SimpleString | resp/resp.go:229-250 | value, input left and errors of the specified reader, on any input |
| Resp.Reader.Array | resp/resp.go:160-209 | the element loop reads exactly the specified arguments, with its errors |
| Resp.MarshalCommand | server/server.go:751-759 | the marshalling loop writes the canonical bytes of the command |
| Aof.LoadOfCutLog | aof/aof.go:70-103 | the log of any commands cut at any byte, for any replay callback: Load replays the whole commands in it, up to one that fails; if none does, it returns no error if and only if the cut is at a boundary |
| Aof.LoadOfCutLogNeverFailing | aof/aof.go:70-103 | with a callback that never fails: exactly the whole commands, and no error if and only if the cut is at a boundary |
| Aof.WholeIsMaximal | aof/aof.go:79-95 | the whole commands fit in the prefix, byte for byte, and with one more they do not |
| Aof.BoundaryMeans | aof/aof.go:82-86 | a boundary is the end of the first k commands, or of the header or of j elements of the next one, in bytes of their encodings, with k the number of whole commands |
| Aof.BoundaryAt | aof/aof.go:82-86 | every such place, for any k, is a boundary |
| Aof.LoadStep | aof/aof.go:79-95 | loading takes one whole command at a time and stops at the first that fails to replay |
| Aof.AofFile.AppendCmd | aof/aof.go:106-133 | the file grows by the bytes of the command |
| Aof.AofFile.Load | aof/aof.go:70-103 | the loop over the reader gives the specified result for any replay callback |
| Replay.LoadOfLog | server/server.go:179-195 | start-up replay, a new internal client for each command, succeeds exactly when every logged command succeeds, reads and session commands included, and then gives the store they make in order |
| Replay.ReplayOnStore | server/server.go:179-195 | a logged command that works on the store replays as its handler, failing when it fails |
| Replay.LoadOfCutReplay | server/server.go:179-195 | start-up replay of a log cut at any byte: the store its whole commands make, with an error exactly off a boundary, or a replay error when one of them fails |
| Replay.FailedReplays | server/server.go:902-908 | a write that failed fails again on replay: for its arity on any store, otherwise on the store it failed on |
| Logs.LogIsArrivals | server/server.go:902-908 | the log of any run is the write requests given to Execute, in the order they arrived, whether they ran, failed or were only queued |
| Logs.StoreIsExecutedWrites | server/server.go:833-849 | the store of any run without expiries, transactions included, is what the successful writes make in the order they were executed |
| Logs.LogRebuildsExactly | server/server.go:179-195 | over every such run the log rebuilds the store if and only if the writes as they arrived make the same store as the writes as they were executed |
| Logs.LogInOrderRebuilds | server/server.go:179-195 | it does when the two lists are the same |
| Orderly.QueueRuns | server/server.go:838-849 | when every write of a queue succeeds, EXEC executes exactly the writes that were queued, in order |
| Orderly.QueueFails | server/server.go:838-849 | when a write of a queue fails in EXEC, replaying the writes of the queue fails too |
| Orderly.InOrderArrivals | server/server.go:833-908 | in a tidy run in which no write fails, transactions included, writes are executed as they arrive; tidy: no transaction with queued writes is discarded, aborted or left open, and no write arrives while another client has writes queued |
| Orderly.TidyReplays | server/server.go:833-908 | the log of any tidy run replays to the store the run ended with, or not at all, by whether a write failed |
| Orderly.LogRebuildsStore | server/server.go:179-195 | the log of any tidy run, transactions included, loads without error if and only if no write failed, and then rebuilds the store the run ended with |
| Orderly.WithoutMultiIsTidy | server/server.go:507-515 | every run in which nobody sends MULTI is tidy |
| Orderly.CutLogRecovers | aof/aof.go:70-103 | recovery from a crash: the log of a run in order cut at any byte loads the store as it was after the writes that are whole in it, possibly in the middle of an EXEC, with no error if and only if the cut is at a boundary |
| Orderly.CutLogRecoversAStep | aof/aof.go:70-103 | without transactions that is the store the run had after some of its steps, whose log is exactly those writes |
| Examples.DiscardedWriteComesBack | server/server.go:902-908 | a run with an empty final store whose log brings a discarded write back |
| Examples.FailedWriteStops | server/server.go:902-919 | SET k v and then RPUSH k a: the failed push is logged, loading the log is an error, and a replica does not get past it |
| Examples.OutOfOrderMayRebuild | server/server.go:902-908 | a run that is not tidy and whose log rebuilds its store all the same |
| Replication.OffsetsAreBytes | server/server.go:328-351 | on any canonical stream, MULTI and failing reads included, the offset is the bytes of the completed commands, and every ACK reports the bytes strictly before its GETACK |
| Replication.GetAckIsAnswered | server/server.go:333-345 | every REPLCONF GETACK of three elements, in any letter case, is answered with the offset before it, leaves the store, and its bytes are counted |
| Replication.OthersAreNotAnswered | server/server.go:347-350 | no other command is answered |
| Replication.ReplicaReplays | server/server.go:328-351 | on any stream the replica's store is what the completed commands outside MULTI sections make in order; what follows a MULTI is queued for good until a DISCARD |
| Replication.StreamStops | server/server.go:328-351 | on a stream without MULTI the replica has replayed the commands before the place where it stops, and stops only at one that fails there |
| Replication.ReplicaIsReplay | server/server.go:328-351 | on a stream without MULTI the replica reaches the end if and only if every command replays, and then has the store they make |
| Replication.ReplicaFollowsMaster | server/server.go:902-919 | after any tidy run it reaches the end if and only if no write failed, and then has the master's store and an offset of all the bytes |
| Replication.ReplicaFollowsExactly | server/server.go:902-919 | over every run without expiries, transactions included, a replica attached to an empty master reaches the end of the propagated stream with the master's store if and only if the writes as they arrived make the same store as the writes as they were executed |
| Replication.ReplicaStopsAtFailure | server/server.go:347-349 | over every run without expiries, a replica that does not reach the end stops for good at the first write, in order of arrival, that fails on the store made by those before it, with that store and the bytes before that write |
| Replication.ReplicaStopsWhereMasterFailed | server/server.go:347-349 | when the run is in order up to a write that fails, that is the place, and the store is the one the master had then, whatever came after |
| Replication.Node.ProcessMasterCommands | server/server.go:317-352 | the loop leaves the one client of the link, store, offset and acknowledgements as specified, for any stream |
| Morton.CompactInverts | server/zorder_Morton_code.go:49-57 | compacting a code and its shift gives back both words, for all words |
| Morton.SpreadBitsSpreads | server/zorder_Morton_code.go:20-28 | the shift-and-mask rounds put every bit on an even place with zeros between |
| Morton.InterleaveIsMortonSum | server/zorder_Morton_code.go:30-35 | the code is the bit-by-bit sum, bit i of the first word weighing 4^i and of the second 2*4^i |
| Morton.PositionHasCells | server/zorder_Morton_code.go:37-47 | every valid position has its two grid cells, so Encode gives it a code |
| Morton.DecodeIsClose | server/zorder_Morton_code.go:59-83 | decoding the code of a position gives a point within half a cell on both axes |
| Morton.ScoreOfPosition | server/commad_handlers.go:126-131 | below longitude 180 the code is under 2^53; the float64 score keeps it if and only if the longitude is below 180 or the latitude cell is even |
| Morton.PositionRoundTrip | server/commad_handlers.go:183-190 | the point read back from the stored score is within half a cell if and only if the longitude is below 180, the latitude cell is even, or the latitude is on the lower edge of its cell |
| Morton.MaximumLongitudeIsOff | server/commad_handlers.go:126-131 | a valid position at longitude 180, with its cells, that is read back a whole latitude cell off |
| Geo.GeoPosAfterGeoAdd | server/commad_handlers.go:96-194 | through the handlers and the store: GEOPOS right after a successful GEOADD answers with a point within half of 170.10225756 and 360 degrees over 2^26 if and only if the longitude is below 180, the latitude cell is even, or the latitude is on the lower edge of its cell |
| Geo.GeoAddAnswers | server/commad_handlers.go:96-142 | GEOADD succeeds if and only if longitude and latitude are within 180 and 85.05112878 and the key is absent or holds a sorted set; the scores are then the old ones with the member at the float64 of its code, and the answer is 1 or 0 as the member is new or not |
| Geo.GeoAddNeedsNumbers | server/commad_handlers.go:96-112 | without two finite numbers it fails |
| Geo.CodeInNumbers | server/zorder_Morton_code.go:37-47 | the cells are the parts of 2^26 of the two ranges, rounded down, and below longitude 180 the score is the sum of their bits, alternating |
| Geo.GeoPosAnswers | server/commad_handlers.go:144-194 | GEOPOS of a member that holds a code answers with the point the code decodes to |
| Geo.ScoreDecides | server/commad_handlers.go:183-183 | a score holds one code, so there is one point to read off it |
| Rdb.SizeReadsBack | rdb/rdb.go:126-154 | a length in its 6-, 14- or 32-bit form reads back, whatever follows |
| Rdb.StringReadsBack | rdb/rdb.go:156-192 | a string in any length form, or a signed integer in 8, 16 or 32 bits, reads back as the text it stands for |
| Rdb.ItemReadsBack | rdb/rdb.go:349-424 | every item, with or without expiry, reads back, whatever follows |
| Rdb.RecordPrefix | rdb/rdb.go:349-424 | on any bytes, well formed or not: a cut inside a record is an end-of-file error, and a cut after it goes unnoticed |
| Rdb.LoadOfFile | rdb/rdb.go:321-424 | loading the file of any items reaches the end opcode and leaves the in-order sets of the entries without expiry or whose expiry second is later than now, over the store given |
| Rdb.LoadOfCutFile | rdb/rdb.go:321-424 | such a file cut at any byte loads exactly the live entries that are whole in it, and without error if and only if the end opcode is there |
| Rdb.RestoredAt | rdb/rdb.go:374-422 | at every key the last live entry for it wins, and keys without one keep what they held |
| RdbLoader.Reader.ParseLength | rdb/rdb.go:126-154 | value, input left and errors of the specified reader |
| RdbLoader.Reader.ParseString | rdb/rdb.go:156-192 | value, input left and errors of the specified reader, LZF and unknown forms included |
| RdbLoader.Reader.ParseKeyWithType | rdb/rdb.go:287-319 | value, input left and errors of the specified reader, other value types included |
| RdbLoader.Reader.ParseExpireKey | rdb/rdb.go:248-277 | the expiry in 4 or 8 little-endian bytes, then the entry |
| RdbLoader.Reader.ParseSizes | rdb/rdb.go:205-247 | the loop reads the lengths of SELECTDB and RESIZEDB, refusing special encodings |
| RdbLoader.Reader.NextRecord | rdb/rdb.go:355-423 | one round of the opcode switch |
| RdbLoader.Load | rdb/rdb.go:321-424 | the opcode loop gives the specified store and error for any bytes |
| Samples.BytesRead | resp/resp.go:211-223 | a command of one short element in literal bytes reads back, whatever follows |
| Samples.SizeBytesRead | rdb/rdb.go:126-154 | the three forms of a length in literal bytes |
| Samples.StringBytesRead | rdb/rdb.go:156-192 | a string and the three forms of a number in literal bytes |
| Samples.RecordBytesRead | rdb/rdb.go:355-423 | the opcodes and the type byte of a string in literal bytes |
| Samples.ExpiringBytesRead | rdb/rdb.go:248-277 | expiries in seconds and in milliseconds in literal bytes |
| Samples.FileBytesLoad | rdb/rdb.go:321-372 | a file in literal bytes, from the magic string to the end opcode, loads its entry |
| Samples.ParisScore | tests/geospatial_stage_behavior_test.go:195-216 | the position of Paris is stored with the score the tests expect |

## Left out

- Sockets, deadlines, logging, flags, CONFIG, process start-up, the AOF manifest and fsync: plumbing.
- The replica handshake and the RDB transfer: a fixed exchange whose snapshot body is discarded.
- PUB/SUB beyond the mode SUBSCRIBE sets; GEODIST and GEOSEARCH (haversine); INFO, WAIT, KEYS, ECHO, PING,
  and the formatting of the numbers GEOPOS answers with: apart from GET and GEOPOS, whether reads fail
  and what they answer is an arbitrary function of the store, since only GET among them can change it.
- The race between the dirty check and the execution lock: a write of another client between the two
  is missed by it, so the theorems about EXEC are for one command at a time.
- Mutex liveness: a BLPOP that waits holds a lock in the source; in runs of whole commands a BLPOP that
  finds nothing is one that has timed out when it answers. The waiting itself is in `BlockingPop`.
- Requests on which a handler panics (an option of SET without its argument, a negative LPOP count on a
  list, PUBLISH without a message, LRANGE with a negative start on an empty list): they fail here, and
  stop the process in the source.
- Early exits of a connection after a failed write to its socket.
- Expiry is lazy deletion by GET and the one test at RDB load; relative PX and EX are not reproduced by
  replay, so the replay theorems are for runs without them.
- Overflow of 64-bit lengths and spans, and of duration arithmetic. INCR wraps around as in the source.
- BLPOP's timeout uses the same float parser as scores, although the source parses it with 32 bits.
- ToLower and ToUpper act on ASCII letters only.
- Rounding inside Encode and decode is idealised to reals; the conversion of a real to uint32 is stated
  as a relation, and that of a code to float64 is modelled below 2^54.
- The RDB checksum, version check and printed metadata, LZF strings and value types other than strings,
  which the loader rejects or ignores.
- Stores.Store.BLPop: ends where the client starts to wait; receiving and timing out are `BlockingPop` steps.
- Transactions, Isolation, Logs and Replication: their runs are those of a node that is ready; what a
  loading replica refuses is in `Servers`. Other clients of a replica are not part of its stream.
