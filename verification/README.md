# Federation bot: verified models of its core

The bot inspects Matrix servers over federation. Its most intricate command walks a room's event graph
backwards on a target server, hunts events the target lacks on donor servers, sends them to the target and
retries. This project models that protocol as a state machine over the steps between suspension points, proves
what every interleaving keeps, that the workers take boundedly many steps, that a walk nobody stops then ends
within six passes of the status loop, that exactly the repairs a retry confirmed are resolved, exactly when a walk that was stopped and started again hangs, what a
finished walk has covered, and what one hunt sends and in which order. Around it stand the algorithms the walk and its neighbours lean on: the progress bar, message
packing, redaction and event ids, worker-pool fetching, host ordering, notary key merging, the two timed caches,
CNAME following, and server discovery.

| file | what it holds |
|---|---|
| `Collections.dfy` | options, results, and facts about sequences and sets |
| `RoomWalk.dfy` | state, steps and runs of the room walk |
| `RoomWalkSafety.dfy` | id sets, histories and working flags at every suspension point |
| `RoomWalkTermination.dfy` | the measure that bounds worker steps, and the bound on queue writes |
| `RoomWalkEnding.dfy` | how the status loop ends a walk whose workers cannot move, and when it never does |
| `RoomWalkClosure.dfy` | what a walk that ran out of work has covered and searched for |
| `RoomWalkRecords.dfy` | what the OK and the missing sets record, and in which order ids are queued |
| `RoomWalkRetry.dfy` | which hunts are retried, how often, and what a successful retry leads to |
| `RepairOrder.dfy` | the order in which one hunt collects and sends, whatever the servers answer |
| `RepairLayers.dfy` | a hunt over a steady gap: it sends the whole gap, farthest events first |
| `RepairReports.dfy` | exactly when such a hunt sends parents before children |
| `RepairDiamond.dfy` | two concrete runs showing that parents are not always sent first |
| `RoomWalkBot.dfy` | the workers' code on shared fields, each method one step of the machine, and a whole walk under any interleaving |
| `ProgressBar.dfy` | bucket arithmetic and rendering |
| `Formatting.dfy` | greedy packing of lines into messages |
| `Redaction.dfy` | redaction tables, laws of redaction, event ids |
| `EventPool.dfy` | up to three workers on one queue, and its join |
| `HostOrder.dfy` | hosts of a room, ordered as the quoted query orders them |
| `VerifyKeys.dfy` | merging notary key sets into containers updated in place |
| `Caches.dfy` | the TTL cache and the LRU cache against their histories |
| `Cname.dfy` | following CNAME records by loop and by recursion |
| `Discovery.dfy` | name splitting, discovery steps, well-known redirects |

Where a method works on a field or an array-like list in place, a function of the old value specifies it and
the lemmas are about that function. The network, the clock and the user are arguments of steps: a reply, a
timestamp, a pressed button.

## Where the code and its comments differ

The model follows the code in each case.

- Room versions "1" and "2" fall through to the version 11 redaction table (`federationbot/events.py:2203-2226`).
- The host loop says the rest of the host list can be skipped after a hit but goes on, so an event may be
  collected once per host (`federationbot/__init__.py:713-781`).
- An event counts as verified when its verification map is not empty, whatever the verdicts in it
  (`federationbot/__init__.py:718`).
- The list is reversed so that the oldest event is seen first (`federationbot/__init__.py:352`,
  `federationbot/__init__.py:789-801`); `RepairDiamond.LevelEdgeGoesEitherWay` shows a gap where that fails, and
  `RepairReports.ParentsFirstIffNoneLate` and `RepairLayers.ParentsFirstIff` say when it holds.
- A stop followed by a start leaves the command running without its workers: the ones that saw the stop have left
  their loops and are not made again, and a retry worker among them leaves its flag up
  (`federationbot/__init__.py:507-508`, `federationbot/__init__.py:651-652`, `federationbot/__init__.py:883-884`).
  `RoomWalkEnding.StopAndStartHangs` gives such a run and `RoomWalkEnding.TicksFinishIff` the exact condition.
- The empty-queue counter that ends a walk is not reset by a pass that finds a queue non-empty
  (`federationbot/__init__.py:988-995`).
- In a bar with more bits than columns the last bit lies in no column, and the first column is empty, so drawing
  divides by zero, when there are fewer than three bits to two columns
  (`federationbot/utils/bitmap_progress.py:238-246`).
- A TTL cache entry is returned once more after its expiry (`federationbot/cache.py:223-231`).
- A server name is cut at its first colon, so no IPv6 literal survives (`federationbot/resolver/__init__.py:112-114`).
- A look-up that gives neither a host nor an error is an index error (`federationbot/resolver/resolver.py:148-149`).

## Model

| member | source | states |
|---|---|---|
| `RoomWalkSafety.WalkSets` | federationbot/__init__.py:529-587 | in every run resolved ids are both OK and missing, no id enters the error queue twice, no two non-retry rounds fetch the same id, and no id is searched for twice |
| `RoomWalkSafety.IdleIsSound` | federationbot/__init__.py:988-995 | when the status loop gives up for want of work both queues are empty, neither the fetcher nor the repair worker holds an item, and no retry worker is waiting |
| `RoomWalkSafety.SafetyOverRun` | federationbot/__init__.py:501-938 | set, history and flag invariants are kept by every step of every interleaving |
| `RoomWalkTermination.WalkTerminates` | federationbot/__init__.py:501-938 | over a universe of n ids the workers take at most 5 + n * (n + 32 + 4 * hosts) steps, whatever the interleaving and the answers |
| `RoomWalkEnding.NoMovesMeansNoWork` | federationbot/__init__.py:988-995 | if nobody pressed stop and no worker can move, both queues are empty and every flag is down |
| `RoomWalkEnding.WalkEndsInTime` | federationbot/__init__.py:978-1051 | from there no worker ever moves again, whatever happens, and the walk ends exactly with the pass that brings the idle count to six |
| `RoomWalkEnding.WalkCanEnd` | federationbot/__init__.py:501-1051 | a walk nobody stopped can be brought to its end from any point, within the workers' budget and six passes |
| `RoomWalkEnding.TicksFinishIff` | federationbot/__init__.py:978-1051 | whatever was pressed before, when no worker can move and the walk is running, its status loop ends exactly when both queues are empty and no retry worker was abandoned by a stop |
| `RoomWalkEnding.StopAndStartHangs` | federationbot/__init__.py:507-508 | a stop and a start while the fetcher waits leave a walk that never ends by itself, in any room |
| `RoomWalkEnding.OutOfMovesIsRest` | federationbot/__init__.py:501-938 | no worker can move exactly when each one has ended, or waits on an empty queue with no stop pressed |
| `RoomWalkEnding.EndedAfterSixIdlePasses` | federationbot/__init__.py:988-995 | a walk that nobody stopped and that has ended saw six passes with empty queues and all flags down, and no busy one between them |
| `RoomWalkRecords.SetsAreRecords` | federationbot/__init__.py:548-587 | only ids the target had are OK and only ids it reported are missing; between two batches these are all of them |
| `RoomWalkRecords.FetcherQueuesPrevFirst` | federationbot/__init__.py:583-587 | missing prev events go on the error queue before missing auth events |
| `RoomWalkRecords.HuntQueuesPrevFirst` | federationbot/__init__.py:739-765 | a hunt queues missing prev events before missing auth events |
| `RoomWalkRecords.SentByFifties` | federationbot/__init__.py:803-811 | events are sent in their order, fifty at a time |
| `RoomWalkRetry.ResolvedAreHits` | federationbot/__init__.py:901-916 | only ids whose retry got a hit are resolved; on a target that never loses an event, all of them are resolved and OK once the workers of an unstopped walk cannot move |
| `RoomWalkRetry.EveryRepairIsRetried` | federationbot/__init__.py:832-851 | the retry workers are, in order, exactly one for each hunt that collected something |
| `RoomWalkRetry.TenMissesGiveUp` | federationbot/__init__.py:874-924 | a retry worker asks at most until ten misses; one that is done had a hit or exactly ten misses, and in an unstopped walk at rest every one is done |
| `RoomWalkTermination.StepsLeftFalls` | federationbot/__init__.py:501-938 | one measure falls with every worker step and is not raised by the target server, the user or the status loop |
| `RoomWalkTermination.WithinStep` | federationbot/__init__.py:501-938 | every id in any queue, set or hunt stays in a universe closed under ancestor lists |
| `RoomWalkTermination.QueueWrites` | federationbot/__init__.py:583-619 | at most 1 + 3n batches are ever put on the fetch queue and at most n ids on the error queue |
| `RoomWalkClosure.WalkIsClosed` | federationbot/__init__.py:548-619 | on a target that never loses an event, when the fetcher has run dry the start is OK and every parent of an OK id is OK or recorded as missing |
| `RoomWalkClosure.FinishedWalkCoversAncestors` | federationbot/__init__.py:978-1054 | when the status loop ends such a walk for want of work, every ancestor path from the start is OK up to the first missing id on it |
| `RoomWalkClosure.ClosedAlongPath` | federationbot/__init__.py:366-398 | closure under parents carries along paths of any length |
| `RoomWalkClosure.MissingAreSearchedOnce` | federationbot/__init__.py:583-688 | if nobody stops the walk, whenever the repair worker has run dry every missing id was searched for on the donors exactly once |
| `RepairOrder.SendOrder` | federationbot/__init__.py:669-801 | whatever the donors answered, each sent event other than the one asked for goes out before all copies of some event that names it |
| `RepairOrder.TreesGoOutParentsFirst` | federationbot/__init__.py:789-801 | when each missing event has one collected child, everything goes out parents before children |
| `RepairLayers.HuntSendsTheGap` | federationbot/__init__.py:669-823 | while the gap is steady a hunt that has sent everything has sent exactly the lost events behind the missing one, and farther ones never after nearer ones |
| `RepairLayers.ParentsFirstIff` | federationbot/__init__.py:789-801 | a gap where an event names a nearer one never goes out parents first; without an edge between events at one distance, every other gap does |
| `RepairReports.ParentsFirstIffNoneLate` | federationbot/__init__.py:739-801 | over any steady gap, everything goes out parents first exactly when no scanned event was reported to lack an ancestor that was already searched for |
| `RepairReports.ReportedIsNamed` | federationbot/__init__.py:739-765 | such a late report is made exactly for an event that names a lost event searched for before it |
| `RepairLayers.NearerIsCollected` | federationbot/__init__.py:674-774 | when an event is being searched for, everything strictly nearer to the missing one has been collected |
| `RepairLayers.NewIsOneFarther` | federationbot/__init__.py:739-765 | a lost ancestor queued for the first time is exactly one link farther than the event that names it |
| `RepairDiamond.LevelEdgeGoesEitherWay` | federationbot/__init__.py:382-398 | over one gap that stays as it is, reached by a run from the start, and with every report naming all the scanned event names, one run sends an event before its parent and another sends the parent first |
| `RoomWalk.UsableAreAnswers` | federationbot/__init__.py:713-781 | the hits of a host loop are exactly the answered events with a non-empty verification map |
| `RoomWalkBot.FilterUsable` | federationbot/__init__.py:713-781 | the host loop keeps every usable answer in host order and does not stop at the first |
| `RoomWalkBot.RunWalk` | federationbot/__init__.py:501-1051 | the whole command under any interleaving: the fields end as the machine does, within the step bound, with resolved ids both OK and missing, no id searched twice, closure when the fetcher is dry, no work left when nobody stopped it and no worker can move, sets that record what the target said, one retry worker per repair, and resolved ids that are exactly the confirmed repairs |
| `RoomWalkBot.Walk.TakeTurn` | federationbot/__init__.py:501-1051 | every step of the machine is taken by the code that the schedule names |
| `RoomWalkBot.Walk.Receive` | federationbot/__init__.py:538-548 | the target's answer turns a fetched batch into one to walk through |
| `RoomWalkBot.Walk.CheckPrev` | federationbot/__init__.py:564-570 | the good prev events are those named and not reported missing |
| `RoomWalkBot.Walk.HuntPrev` | federationbot/__init__.py:731-734 | the report on a hit's prev events is kept until the auth events are checked |
| `RoomWalkBot.Walk.constructor` | federationbot/__init__.py:361-364 | the fields start as the initial state with the queue primed |
| `RoomWalkBot.Walk.TakeBatch` | federationbot/__init__.py:511-546 | dequeuing a batch is the fetch step of the machine: flag up, attempted ids dropped unless it is a retry |
| `RoomWalkBot.Walk.Pick` | federationbot/__init__.py:548-570 | a found id becomes OK, and resolved on a retry; a failed one is dropped |
| `RoomWalkBot.Walk.EnqueueMissing` | federationbot/__init__.py:583-587 | exactly the ids not yet known to be missing are appended to the error queue, in order, once each |
| `RoomWalkBot.Walk.FinishEvent` | federationbot/__init__.py:575-596 | both ancestor reports go to the error queue and the next batch as in the machine |
| `RoomWalkBot.Walk.FinishRound` | federationbot/__init__.py:606-625 | a non-empty next batch is queued as no retry, and the flag goes down |
| `RoomWalkBot.Walk.TakeMissing` | federationbot/__init__.py:654-675 | a hunt starts with the dequeued id, an empty search set and nothing collected |
| `RoomWalkBot.Walk.NextToFind` | federationbot/__init__.py:675-688 | the head of the hunt loop: end on an empty queue or a stop, skip an id tried in any hunt, else search |
| `RoomWalkBot.Walk.KeepUsable` | federationbot/__init__.py:698-718 | the donors' answers become the hits to scan |
| `RoomWalkBot.Walk.Collect` | federationbot/__init__.py:713-737 | a hit is appended to the collected list before its ancestors are checked |
| `RoomWalkBot.Walk.HuntAncestors` | federationbot/__init__.py:739-765 | missing prev ancestors, then auth ancestors, are queued unless already searched for in this hunt |
| `RoomWalkBot.Walk.SendSome` | federationbot/__init__.py:803-811 | the next fifty events go out, in order |
| `RoomWalkBot.Walk.FinishHunt` | federationbot/__init__.py:832-851 | a retry worker is made if and only if something was sent, and the flag goes down |
| `RoomWalkBot.Walk.StartRetry` | federationbot/__init__.py:874-884 | a retry worker raises its flag and leaves it up if the walk was stopped |
| `RoomWalkBot.Walk.CheckAgain` | federationbot/__init__.py:880-924 | a hit queues the id as a retry; ten misses give up; the flag goes down in both cases |
| `RoomWalkBot.Walk.StatusPass` | federationbot/__init__.py:978-995 | one status pass counts idle passes and finishes after more than five of them or on a stop |
| `ProgressBar.RoundHalfUp` | federationbot/utils/numbers.py:52-60 | the result is within half of the quotient, halves up |
| `ProgressBar.NearestIsUnique` | federationbot/utils/numbers.py:52-60 | no other integer is |
| `ProgressBar.NarrowBuckets` | federationbot/utils/bitmap_progress.py:229-237 | with no more bits than columns, column s shows the least bit that reaches it |
| `ProgressBar.EveryBitIsShown` | federationbot/utils/bitmap_progress.py:229-237 | columns show bits in non-decreasing order, every bit 1 to max has a column, and the last column shows the last bit |
| `ProgressBar.WideBuckets` | federationbot/utils/bitmap_progress.py:238-246 | with more bits than columns, each column starts where the one before ends, at the rounded multiples |
| `ProgressBar.WideColumnSize` | federationbot/utils/bitmap_progress.py:238-246 | every column but the first is non-empty and holds the floor or the ceiling of bits per column |
| `ProgressBar.FirstColumnIsEmptyIff` | federationbot/utils/bitmap_progress.py:241-246 | the first column is empty exactly when there are fewer than three bits to two columns |
| `ProgressBar.WideColumnsCover` | federationbot/utils/bitmap_progress.py:238-246 | a bit lies in exactly one column if it is 1 to max - 1 and in none otherwise |
| `ProgressBar.HighestThreshold` | federationbot/utils/bitmap_progress.py:283-289 | trying all eight thresholds gives the floor of eight times the set share |
| `ProgressBar.GlyphsAreDistinct` | federationbot/utils/bitmap_progress.py:165-222 | a drawn cell can be read back as a level |
| `ProgressBar.GlyphFills` | federationbot/utils/bitmap_progress.py:165-222 | a cell shows exactly the braille dots its level calls for: linear fills the left column from the bottom and then the right, scatter row by row |
| `ProgressBar.ColumnsEndAtNearest` | federationbot/utils/bitmap_progress.py:229-246 | both kinds of columns end at the nearest whole number, halves up |
| `ProgressBar.TallyCounts` | federationbot/utils/bitmap_progress.py:282-282 | a tally is the number of set bits of the column |
| `ProgressBar.MakeBar` | federationbot/utils/bitmap_progress.py:189-191 | making a bar fails exactly on a size that is not positive |
| `ProgressBar.BitmapProgressBar.constructor` | federationbot/utils/bitmap_progress.py:192-246 | buckets as above, bits 1 to max unset |
| `ProgressBar.BitmapProgressBar.Update` | federationbot/utils/bitmap_progress.py:248-264 | scatter sets exactly the given values, linear everything up to their maximum; only linear fails, on no values |
| `ProgressBar.BitmapProgressBar.Render` | federationbot/utils/bitmap_progress.py:277-294 | one glyph per column by its level, or a division by zero exactly when the first column is empty |
| `ProgressBar.BitmapProgressBar.ColumnIsSound` | federationbot/utils/bitmap_progress.py:280-283 | no column looks up a bit outside the map, and only the first can be empty |
| `ProgressBar.ColumnsConserveBits` | federationbot/utils/bitmap_progress.py:280-283 | the columns' tallies add up to the number of set bits, each counted once, the last never |
| `ProgressBar.LevelsOnlyRise` | federationbot/utils/bitmap_progress.py:280-289 | marking more bits never lowers a column |
| `ProgressBar.FullCellIff` | federationbot/utils/bitmap_progress.py:280-289 | a column is drawn full exactly when all its bits are set |
| `ProgressBar.FullWideBarIff` | federationbot/utils/bitmap_progress.py:277-294 | a wide bar is full exactly when every bit but the last is set |
| `ProgressBar.FullNarrowBarIff` | federationbot/utils/bitmap_progress.py:277-294 | a narrow bar is full exactly when every bit is set |
| `Formatting.CombineLines` | federationbot/utils/formatting.py:80-105 | the plain version packs greedily, with the header's size as overhead; every message starts with the header, the texts behind it hold the given lines, and lines without newlines are read back by splitting at newlines |
| `Formatting.CombineLinesHtml` | federationbot/utils/formatting.py:131-148 | the HTML version is the same packer on rendered lines, with headers and tags as overhead; the texts hold the given lines, with code tags and breaks exactly if asked for, and are read back by them |
| `Formatting.PiecesBack` | federationbot/utils/formatting.py:91-105 | lines ended by newlines are read back from the joined text |
| `Formatting.TextOfWrap` | federationbot/utils/formatting.py:91-105 | the messages without header and closing tag hold the chunks' text |
| `Formatting.PackRendered` | federationbot/utils/formatting.py:150-170 | its loop wraps exactly the greedy chunks |
| `Formatting.PackConserves` | federationbot/utils/formatting.py:91-105 | no line is lost, added or reordered |
| `Formatting.ChunksFitIff` | federationbot/utils/formatting.py:91-105 | all chunks are within the limit exactly when every line with the header is |
| `Formatting.MessagesFitIff` | federationbot/utils/formatting.py:91-105 | the same for the rendered messages |
| `Formatting.PackIsShortest` | federationbot/utils/formatting.py:91-105 | the greedy packer stays ahead of any split of a text that starts no later |
| `Formatting.ChunksAreFewest` | federationbot/utils/formatting.py:91-105 | no order-preserving split into fitting chunks has fewer chunks |
| `Redaction.RedactWith` | federationbot/events.py:2171-2200 | the loop computes the redacted event, or fails on content of an event without a string type or on content that is no object |
| `Redaction.MeetKeepsBoth` | federationbot/events.py:2171-2200 | the intersection of two tables keeps what both keep, with the all-keys constant as top |
| `Redaction.RedactTwice` | federationbot/events.py:2171-2200 | redacting with one table and then another is redacting with their intersection |
| `Redaction.RedactionLaws` | federationbot/events.py:2171-2200 | redaction is idempotent, commutes, and a stricter table absorbs a laxer one |
| `Redaction.TablesChain` | federationbot/events.py:2014-2134 | the tables of versions 6, 8 and 9 form a strict chain, and 6 is below 3 |
| `Redaction.NewestTableIsIncomparable` | federationbot/events.py:2137-2168 | the version 11 table is neither above nor below the chain |
| `Redaction.OlderVersionAbsorbs` | federationbot/events.py:2203-2226 | an event redacted for 6 or 7 is the same with or without a redaction for 8 to 10 before or after |
| `Redaction.RedactedByVersion` | federationbot/events.py:2203-2226 | at each room version redaction keeps, unchanged, exactly the version's keys: aliases for 3-5, allow for 8-11, the authorising user for 9-11, invite, redacts and all create content for 11, origin, membership and prev_state for 3-10, and what every version keeps |
| `Redaction.IdByVersion` | federationbot/events.py:1921-1939 | an id is a dollar sign and the hash of exactly what the version keeps without signatures and unsigned data |
| `Redaction.EssenceIsHashed` | federationbot/events.py:1933-1935 | two events have the same hash input exactly when they agree on what redaction keeps, signatures and unsigned data aside |
| `Redaction.SameIdIff` | federationbot/events.py:1905-1939 | such events have the same id, and for a collision-free hash only such events |
| `Redaction.RedactionKeepsId` | federationbot/events.py:1905-1939 | redacting an event first changes neither its id nor its error |
| `Redaction.SignaturesDoNotCount` | federationbot/events.py:1934-1935 | adding, removing or changing signatures or unsigned data does not change the id |
| `Redaction.ConstructEventId` | federationbot/events.py:1905-1939 | the id is a dollar sign and the hash of exactly what the room version keeps, computed on a copy; the event passed in stays as it was |
| `EventPool.JoinHasEveryAnswer` | federationbot/federation.py:273-309 | if the join returns, the answers are for exactly the requested ids, in every interleaving |
| `EventPool.JoinReturnsIffNoneDied` | federationbot/federation.py:275-305 | once no worker can move, the join has returned exactly when no worker died holding an id |
| `EventPool.GetEventsFromServer` | federationbot/federation.py:253-309 | under any interleaving the fetch returns exactly when the join does, with exactly the requested ids and for each the answer given for that id, after at most two steps per id; when no worker can move, exactly if none died |
| `EventPool.JoinHasTheAnswers` | federationbot/federation.py:279-290 | if the join returns, each id has the answer that was given for that very id |
| `EventPool.AtMostThreeWorkers` | federationbot/federation.py:301-303 | there are as many workers as ids, but no more than three |
| `EventPool.PoolTerminates` | federationbot/federation.py:275-290 | every step lowers the number of steps left |
| `EventPool.PoolRunsAreShort` | federationbot/federation.py:275-290 | no run is longer than two steps per requested id |
| `EventPool.PoolStep` | federationbot/federation.py:275-290 | unfinished ids are the queued and the held ones, and every requested id is queued, held or answered |
| `EventPool.Fetch.constructor` | federationbot/federation.py:295-303 | every id is queued once per request, with up to three workers |
| `EventPool.Fetch.TakeId` | federationbot/federation.py:276-283 | a worker takes the head of the queue |
| `EventPool.Fetch.StoreAnswer` | federationbot/federation.py:285-290 | the answer is stored before the id is reported done |
| `EventPool.Fetch.LoseWorker` | federationbot/federation.py:279-290 | an exception ends a worker without reporting its id done |
| `HostOrder.GetHostsInRoomOrdered` | federationbot/federation.py:804-868 | the host list is the result of the quoted query, and fails exactly on a joined member without a domain |
| `HostOrder.DomainIs` | federationbot/utils/matrix.py:9-19 | an id has a domain exactly if it has a colon, and the domain is all that follows the first one |
| `HostOrder.FiltersKeepOrder` | federationbot/federation.py:885-900 | filtering two lists after one another is filtering them together |
| `HostOrder.OrderedHosts` | federationbot/federation.py:813-827 | first occurrences in a depth-sorted member list are distinct, complete, and ordered by least depth |
| `HostOrder.SortIsStable` | federationbot/federation.py:860-860 | the sort orders by depth, keeps every event, and keeps the order within a depth |
| `HostOrder.FirstOccurrencesInOrder` | federationbot/federation.py:861-865 | an earlier kept host is met before a later one ever is |
| `HostOrder.FirstHosts` | federationbot/federation.py:861-865 | the loop keeps first occurrences |
| `HostOrder.FilterEventsBasedOnType` | federationbot/federation.py:885-890 | keeps the events of a type, in order |
| `HostOrder.FilterEventsBasedOnMembership` | federationbot/federation.py:893-900 | keeps the events of a membership, in order |
| `VerifyKeys.MergeIsMaximum` | federationbot/types.py:174-226 | after any list of key sets the known ids are all that occur and each validity is the largest given anywhere |
| `VerifyKeys.OrderDoesNotMatter` | federationbot/types.py:209-226 | reordered or repeated key sets give the same ids and validities |
| `VerifyKeys.KnownKeysStay` | federationbot/types.py:174-207 | a known key keeps its value and its validity never falls |
| `VerifyKeys.NewKeysAreFirstGiven` | federationbot/types.py:190-207 | a key not known before gets the value of the first key set that mentions it, from its current section if it is there |
| `VerifyKeys.MergeIsIdempotent` | federationbot/types.py:209-226 | merging a response again changes nothing |
| `VerifyKeys.KeyContainer.constructor` | federationbot/types.py:123-140 | an old key takes its expiry, missing fields count as empty or zero |
| `VerifyKeys.ServerVerifyKeys.UpdateEntry` | federationbot/types.py:190-207 | a known key's container is raised to the later validity in place, an unknown key gets its own container |
| `VerifyKeys.ServerVerifyKeys.UpdateKeyDataFromDict` | federationbot/types.py:174-207 | the current section is merged, then the old one |
| `VerifyKeys.ServerVerifyKeys.UpdateKeyDataFromList` | federationbot/types.py:209-225 | key sets are merged one after another |
| `Caches.TtlHistory` | federationbot/cache.py:208-231 | after any run a key holds its last write, unless that was read after its expiry |
| `Caches.ExpiryIs` | federationbot/cache.py:208-215 | an entry expires a displacement after it was written, or the default time if there is none or it is zero |
| `Caches.FreshReadsHit` | federationbot/cache.py:223-231 | with a clock that never goes back, a read no later than the expiry returns the last write |
| `Caches.OneStaleRead` | federationbot/cache.py:223-231 | a write answers at most one read after its expiry, and does answer one |
| `Caches.TTLCache.Set` | federationbot/cache.py:208-215 | the entry's expiry is the time in milliseconds plus the displacement, zero counting as none, or the default |
| `Caches.TTLCache.Get` | federationbot/cache.py:223-231 | an expired entry is removed and still returned |
| `Caches.LruHistory` | federationbot/cache.py:102-166 | a key is present exactly when no cleanup since its last write found it idle too long, and a hit returns that write |
| `Caches.LRUCache.Set` | federationbot/cache.py:102-111 | stores the value with the time |
| `Caches.LRUCache.Get` | federationbot/cache.py:113-128 | a hit renews the access time; a miss gives the default |
| `Caches.LRUCache.CleanupPass` | federationbot/cache.py:155-166 | exactly the entries idle longer than the expiry are removed |
| `Cname.FollowIteratively` | federationbot/resolver/dns.py:129-144 | where the loop ends, it is at the end of the chain |
| `Cname.HaltsIffNoNameRepeats` | federationbot/resolver/dns.py:131-144 | the loop ends exactly when no name is met twice, after at most as many records as there are names |
| `Cname.ResolveRecursively` | federationbot/delegation.py:291-309 | where the recursion ends, it is at the end of the chain |
| `Cname.RecursionHaltsIffNoCycle` | federationbot/delegation.py:291-309 | the recursion ends exactly when it reaches no name that reaches itself, and then no deeper than the answer has names |
| `Cname.LoopEndsIfRecursionDoes` | federationbot/resolver/dns.py:131-144 | where the recursion ends the loop ends as well |
| `Cname.LoopMayEndAlone` | federationbot/delegation.py:300-307 | an answer on which the loop ends and the recursion does not, because the recursion follows every record of a set |
| `Cname.FollowersAgree` | federationbot/delegation.py:291-309 | where both followers end they agree, on a name without a CNAME record |
| `Cname.AcyclicAnswersEnd` | federationbot/resolver/dns.py:131-144 | on an acyclic answer the loop and the recursion end from any name |
| `Discovery.HeaderSplitsBack` | federationbot/resolver/__init__.py:91-119 | the host and port header of a split name splits back into that host and port |
| `Discovery.DiscoveredHeaderSplitsBack` | federationbot/resolver/resolver.py:151-225 | whenever the name or the delegation has a port, the Host header of a discovery splits back into the target's name and the port of every address |
| `Discovery.SplitIs` | federationbot/resolver/__init__.py:105-119 | a name is refused exactly for a scheme; otherwise the host is the whole name without a port, or what stands before the first colon, with the port made of the rest or 0 |
| `Discovery.DiscoveredForName` | federationbot/resolver/resolver.py:120-313 | hostname, SNI, Host header and addresses of a discovery in terms of the name itself |
| `Discovery.SplitHostHasNoColon` | federationbot/resolver/__init__.py:112-114 | a split host holds no colon |
| `Discovery.DecimalParsesBack` | federationbot/resolver/__init__.py:114-114 | a port written in decimal reads back |
| `Discovery.DiscoverServer` | federationbot/resolver/resolver.py:116-313 | the code's decision order meets the specified ports, addresses, headers and errors for all look-up answers |
| `Discovery.DiscoveredPorts` | federationbot/resolver/resolver.py:116-313 | a successful discovery has an address, with the name's port, else the delegation's; without either, a named target uses exactly its SRV addresses if there are any and 8448 if there are none |
| `Discovery.FollowRedirects` | federationbot/resolver/resolver.py:350-420 | every host asked was led to by the one before and has a usable address, none is asked twice because of a redirect, and the result is what the last host's answer calls for: the loop is broken exactly on a host already reached by a redirect |

## Left out

- TreesGoOutParentsFirst: one direction only; one collected child each is enough for parents first but not needed. The exact condition, for a steady gap, is `RepairReports.ParentsFirstIffNoneLate`.
- ParentsFirstIff: a condition on the gap alone cannot decide an edge between two events at one distance, because `RepairDiamond.LevelEdgeGoesEitherWay` shows both orders from one gap; the condition on the run, without this limit, is `RepairReports.ParentsFirstIffNoneLate`.
- HuntSendsTheGap: assumes a gap that does not change during the hunt; for answers that change, `RepairOrder.SendOrder` is what is proved.
- ParentsFirstIffNoneLate: assumes, besides a steady gap, that no event names its own id, which is a hash of it.
- WalkIsClosed: assumes a target that never loses an event and replies that name every event it could serve when asked.
- IdleIsSound: a retry worker that was created but has not run yet has no flag, so it is not ruled out.
- FollowIteratively: requires that the chain ends; `Cname.HaltsIffNoNameRepeats` says exactly when.
- ResolveRecursively: requires that the recursion ends; `Cname.RecursionHaltsIffNoCycle` says exactly when.
- FollowRedirects: takes a finite set of redirect hosts; a lone `already_tried` set does not bound an endless supply of names.
- HeaderSplitsBack: the lenient forms of Python's `int` (spaces, signs, underscores) are a parameter, so a negative port reads back only if that parameter reads it back.
- WalkEndsInTime: a status pass is a step without a duration; how long the workers and the servers take before they come to rest is not modelled.
- RunWalk: runs a schedule of steps that are possible where they stand, and the event ids the donors name are in a finite set.
- DiscoverServer: the Host header for a literal address without a port carries 8448, as in the code.
- A worker of the room walk that dies of an exception, and suspension steps that change nothing but where a coroutine waits.
- A worker's test of the stop button at the head of its loop is a step that may or may not be taken while the button is pressed.
- The target server's answer for one id is a fixed event; donors may answer with anything.
- Wall-clock sleeps, back-off times, time accounting, the progress depths and all rendering of the status message.
- IEEE rounding in the progress bar: exact rationals are used.
- Canonical JSON, SHA-256 and base64: one uninterpreted function from the redacted event to the hash text.
- Aliasing of nested values between an event and its redacted copy.
- The constructor of `ServerVerifyKeys` that reads initial key data, and the stored raw response.
- Eviction conditions other than the default one, the locks and the timer around the cleanup pass.
- IPv6 address filtering and the choice of the first answer among parallel well-known requests: parameters.
- HTTP, TLS, DNS wire format, signature checks, the other commands, pagination of the message-based room walk and the task controller.
- `handle_delegation`: its steps do not follow their own comments; `_discover_server` is modelled in its place.
