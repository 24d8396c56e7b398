# The tape service, modelled and proved in Dafny

Each user has a *tape*: a Redis sorted set of document id -> position that caches "the documents of my sources and
dates I have not scored, in order of publication". A worker rebuilds it in full or tops it up; at the same time
`POST /score`, a database listener and `GET /tape` take entries out without taking the worker's lock, and `PUT /config`
changes what the tape should show. Clients read the tape in pages that are cut by position.

The project models the tape twice and ties the two models together:

* **As shared state under interleaving** (`Protocol*.dfy`). Every process that touches one user's tape is a state
  machine whose steps are single Redis or Postgres commands; time passes, processes fail or are killed, documents change
  upstream, and scores arrive from elsewhere, in any order. Invariants are proved for every step and lifted to every
  interleaving.
* **As sequential methods on a store object** (`Store`, `Generator`, `Worker`, `TapeApi`). Loops, the pipeline that is
  not a transaction, the exception paths and the published events follow the source; a failure can be injected at any
  call. Each method is proved against a function of the old state, and the laws are proved about that function
  (`RunLaws`).
* `ProtocolSolo` connects them. `RunsAreMachineRuns`: every run of the generator as the sequential specification
  gives it, in every branch, with every failure it can have and whatever time it takes, is a run of the machine's
  process alone, ending in the same state. The same is proved of `GET /tape`, `POST /score`, `PUT /config` and the
  listener's handler, without failures.

Around the tape stand three timed state machines: the login limiter (`RateLimit`), the sessions (`Sessions`) and the
task scheduler written in SQL (`Scheduler`). The code of the first two keeps only a summary; the proofs say what the
summary means for the whole history of calls.

| file | contents |
|---|---|
| `Prelude.dfy` | options, filtering a sequence |
| `Keys.dfy` | key names; they never collide and can be read back |
| `SortedSet.dfy` | the sorted set: order, pages, maximum, appends |
| `Paging.dfy` | walks along `next_position` over a changing or an unchanging tape |
| `Candidates.dfy` | the query a tape caches, and the exclude list |
| `Lock.dfy` | the lock key |
| `Protocol.dfy` | the interleaving machine |
| `ProtocolPositions.dfy` | lock exclusion, positions, what a top-up and a rebuild achieve under interference |
| `ProtocolReaders.dfy` | clients that follow `next_position` through `GET /tape` processes |
| `ProtocolScores.dfy` | scored documents, and what `GET /tape` returns and repairs |
| `ProtocolDirty.dfy` | the dirty flag |
| `ProtocolWitness.dfy` | how the other processes can break what the hypotheses protect |
| `ProtocolSolo.dfy` | the sequential methods are runs of the machine |
| `Store.dfy`, `Database.dfy` | Redis and Postgres as objects, with the operations made on them |
| `Generator.dfy`, `Worker.dfy` | the inner try block of a run; the run around it, and the tick |
| `RunLaws.dfy` | what a run achieves, and what a failing run leaves |
| `TapeApi.dfy` | `GET /tape`, `POST /score`, `PUT /config`, the listener's handler |
| `RateLimit.dfy`, `Sessions.dfy`, `Scheduler.dfy` | the three machines around the tape |

`dafny verify dfyconfig.toml` checks everything.

## What turned out false, and when it holds

* *Positions stay distinct* can fail when a run appends after another run has taken its lock. It holds in every
  interleaving without such a step (`ProtocolPositions.PositionsStayDistinct`, under `Fenced`), so whenever every
  append falls within its own run's TTL (`PromptIsFenced`) and, with no hypothesis on time at all, whenever one worker
  runs (`OneWorkerIsFenced`). Conversely, from every interleaving in which any run still has a document to add, the
  other processes, with documents only added upstream, can go on to a tie (`ProtocolWitness.AnyRunCanTie`), and step
  by step a tie comes only from a `ZADD NX` of a new document at an occupied position (`StepKeepsDistinctIff`). It
  matters because a walk reads the whole tape for every page size if and only if positions are distinct
  (`Paging.WalkIsCompleteIffDistinct`).
* *A lowered dirty flag means the tape shows the current selection* is false when a config write between a full run's
  config reads and its `clear_dirty` narrows the sources or the dates: every such write, whichever source and date it
  drops, can be lost, even with one worker (`ProtocolWitness.NarrowingWriteIsLost`). With one worker and no such write
  it holds in every interleaving (`ProtocolDirty.WideningIsQuiet`, `DirtyFlagIsTruthful`); writes of order, page size
  and display, and writes that only widen, do no harm.
* *A run leaves one terminal record* is false when a publish fails after `finish_run("ok")` took effect: the handler then
  adds an error record. `RunLaws.RecordsOfRun` gives the exact records for every failure.
* *At most `capacity` calls per window* needs the calls of that key to take the mutex in clock order
  (`RateLimit.EveryWindowHolds`). Without any order it holds if and only if the capacity is at most 1 or the window is
  negative (`RateLimit.WindowsHoldInAnyOrderIff`). That the answers are exact holds without order only for a
  capacity that lets nothing through (`RateLimit.AnswersExactInAnyOrderIff`).
* *A task with status 10 has a pending row* is kept by every modelled SQL function except a direct `unschedule`, which
  keeps it if and only if the task ends at another status or has another row (`Scheduler.UnscheduleKeepsTensIff`,
  `Scheduler.UnscheduleCanBreakTens`).

Where the code and its own comments differ, the code is followed: the limiter calls itself a fixed-window counter but
keeps a sliding log; the docstring of `generate_for_user` gives two reasons for `skipped`, a missing config is a third;
the comment on sessions says the Redis TTL is never trusted alone, but the idle limit rests on nothing else.

## Model

| member | source | states |
|---|---|---|
| `Keys.KeysNeverCollide` | src/tape_service/store/tape.py:13-29 | for all users, config, sources, entries, runs and lock keys, the counter and the channels are pairwise distinct, and each kind names one user |
| `Keys.UserOfKeyInverts` | src/tape_service/store/tape.py:93-101 | a config key is read back to its user; a sources key to nobody |
| `Keys.KeysOfUserSeven` | src/tape_service/store/tape.py:13-29 | the names themselves |
| `Store.Redis.ListUsersWithConfig` | src/tape_service/store/tape.py:86-104 | the loop over scanned keys returns the listing function of the keys |
| `Store.ScanListsUsers` | src/tape_service/store/tape.py:86-104 | over a scan of the config keys, the listing is exactly the users with a config, each with its flag |
| `SortedSet.RowsListTape` | src/tape_service/store/tape.py:133-149 | the listing holds every entry, nothing else, by position and then by member bytes |
| `SortedSet.ListingIsUnique` | src/tape_service/store/tape.py:133-149 | any ordered listing of a tape is that listing |
| `SortedSet.StrLessExact` | src/tape_service/store/tape.py:139-148 | entries at one position come in the order of their bytes |
| `SortedSet.OddPageSizes` | src/tape_service/store/tape.py:138-148 | what page sizes below one read, with and without a cursor |
| `SortedSet.PageIsExact` | src/tape_service/store/tape.py:133-149 | with distinct positions a page holds, in increasing order, exactly the entries past the cursor up to its own next position |
| `SortedSet.MaxPositionExact` | src/tape_service/store/tape.py:156-160 | -1 on an empty tape, else a position some entry has and none exceeds |
| `SortedSet.AddAllExact` | src/tape_service/store/tape.py:178-182 | an append leaves old entries in place, covers every document given, and puts new ones at their place in the request |
| `SortedSet.AddedDocs` | src/tape_service/store/tape.py:174-184 | the reported pairs are exactly what became new, in submission order |
| `SortedSet.AddedPositions` | src/tape_service/store/tape.py:184 | each reported pair carries its document's place in the request, increasing |
| `SortedSet.AppendExtendsListing` | src/tape_service/store/tape.py:163-184 | an append above the tape lists as the old listing followed by the reported pairs |
| `SortedSet.AppendKeepsDistinct` | src/tape_service/store/tape.py:163-184 | it keeps positions distinct |
| `Store.Redis.ZAddPipeline` | src/tape_service/store/tape.py:179-182 | the pipelined commands act one after another on the tape, each with its own reply |
| `Store.Redis.AppendEntries` | src/tape_service/store/tape.py:163-184 | new tape and reported pairs; when the connection breaks after n commands, exactly the first n have taken effect |
| `Store.Redis.Reported` | src/tape_service/store/tape.py:184 | the comprehension over the replies yields the pairs that became new |
| `Store.Redis.Release` | src/tape_service/store/lock.py:14-19 | removes the caller's own live token only; afterwards nothing live is held under it |
| `Store.DecodeExact` | src/tape_service/store/tape.py:49-61 | every field of the config is read as stored, and a missing one as newest first, compact, twenty to a page |
| `Store.SetDirtyExact` | src/tape_service/store/tape.py:111-112 | setting the flag changes nothing else, and creates a bare config where there is none |
| `Candidates.AnswerIsCorrect` | src/tape_service/db/candidates.py:34-51 | a database with any physical order answers each wanted document once, sorted by publication |
| `Candidates.EveryAnswerOccurs` | src/tape_service/db/candidates.py:44 | every answer SQL allows is the answer for some physical order |
| `Candidates.CandidatesExact` | src/tape_service/db/candidates.py:52-55 | what is returned is exactly the rows outside the exclude list |
| `Candidates.ExcludeIsOnlyAnOptimisation` | src/tape_service/worker/generator.py:58-85 | excluding any part of the tape and appending above it adds the same documents, as many, in the same order as excluding all of it |
| `Database.ScoredByExact` | src/tape_service/db/candidates.py:40-43 | a document counts as scored by a user exactly when some role of that user has scored it |
| `Database.ScoreCountsForItsUser` | src/tape_service/db/candidates.py:40-43 | a new score adds one document for its own user and changes nobody else's answer |
| `Database.SelectAnswers` | src/tape_service/db/candidates.py:35-51 | over the tables: the SELECT answers, once each, the documents of the sources, from dateFrom to dateTo inclusive, that no role of the user has scored |
| `Database.SelectSorts` | src/tape_service/db/candidates.py:34-44 | newest first if descending, else oldest first |
| `Paging.WalkIncreases` | src/tape_service/api/tape.py:70-75 | a walk over a changing tape collects strictly increasing positions, all between its cursors |
| `Paging.StayingEntryIsRead` | src/tape_service/api/tape.py:70-75 | an entry that stays is collected exactly when the walk has passed its position |
| `Paging.PagingIsStable` | src/tape_service/api/tape.py:141 | when the walk ends, an entry that stayed was read exactly once |
| `Paging.StillWalk` | src/tape_service/api/tape.py:141 | on an unchanging tape, pages of any sizes end and give the whole listing |
| `Paging.WalkIsCompleteIffDistinct` | src/tape_service/store/tape.py:133-149 | walking reads the whole tape for every page size if and only if positions are distinct |
| `Paging.ItemsExact` | src/tape_service/api/tape.py:102-139 | the items are exactly the page's rows whose document exists and is unscored, in order |
| `ProtocolPositions.LockExcludes` | src/tape_service/store/lock.py:26-45 | in every interleaving, while one run is within its TTL the key is alive and no other run is within its own |
| `ProtocolPositions.OnlyOwnerReleases` | src/tape_service/store/lock.py:14-19 | the key changes only when taken free, or when a run deletes its own live token: a late release never frees a successor's lock |
| `ProtocolPositions.PositionsStayDistinct` | src/tape_service/worker/generator.py:53-85 | at every moment of every interleaving positions are pairwise distinct, if no run appends after another has taken its lock |
| `ProtocolPositions.PromptIsFenced` | src/tape_service/store/lock.py:29-45 | that is so if every append falls within its own run's TTL |
| `ProtocolPositions.OneWorkerIsFenced` | src/tape_service/worker/generator.py:156-165 | and with one generator run at a time, however long runs take |
| `ProtocolPositions.OneWorkerStaysDistinct` | src/tape_service/worker/generator.py:156-165 | so with one worker positions are distinct at every moment of every interleaving |
| `ProtocolPositions.StepKeepsDistinctIff` | src/tape_service/store/tape.py:178-182 | on distinct positions a step of any process keeps them distinct if and only if it is not a ZADD NX of a new document at an occupied position |
| `ProtocolPositions.NewcomersGoLast` | src/tape_service/worker/generator.py:58 | under the same condition a document that enters does so behind every entry present at that moment, and no entry leaves in that step |
| `ProtocolPositions.PositionNeverMoves` | src/tape_service/store/tape.py:180-181 | an entry's position does not change while it stays in, in every interleaving, without any hypothesis on locks |
| `ProtocolPositions.RebuildMirrorsAnswer` | src/tape_service/worker/generator.py:53-85 | at every step of a full run that nobody superseded the tape holds only documents of its answer, each at its rank |
| `ProtocolPositions.RebuildIsExact` | src/tape_service/worker/generator.py:53-85 | after its last append the tape holds only documents of the answer, each at its rank, and all of them but those some step took out since the query |
| `ProtocolPositions.RunCoversAnswer` | src/tape_service/worker/generator.py:57-85 | after the last append of a top-up, every document of its answer is in the tape unless some step took it out since the exclude page was read |
| `ProtocolScores.ScoredReturnsOnlyByEarlierQuery` | src/tape_service/worker/generator.py:67-85 | a scored document re-enters the tape only by a run whose query was answered before the score |
| `ProtocolScores.ScoredStaysOut` | src/tape_service/db/candidates.py:40-43 | once no such run is left, a scored document that is out stays out for ever |
| `ProtocolScores.OneRemovalSettles` | src/tape_service/worker/listener.py:84-90 | after those runs one removal, by anyone, keeps it out for ever |
| `ProtocolScores.GetReturnsNothingScored` | src/tape_service/api/tape.py:86-139 | in every interleaving `GET /tape` returns exactly the rows of its page that exist and were not scored at its filter query |
| `ProtocolReaders.GetReturnsInOrder` | src/tape_service/api/tape.py:102-139 | and, if no superseded run appends, at strictly increasing positions |
| `ProtocolReaders.ReceivedInOrder` | src/tape_service/api/tape.py:53-147 | all that a client gets whose requests follow next_position, from any cursor, while runs, removers and writers interleave, comes at strictly increasing positions |
| `ProtocolReaders.PagingIsStable` | src/tape_service/api/tape.py:53-147 | and if it walks from the start to the end, a document that stays, exists and is unscored all the while reaches it exactly once, at its position |
| `ProtocolScores.GetTakesScoredOut` | src/tape_service/api/tape.py:102-117 | every scored document of the page is out of the tape at some moment between the filter query and the return, whoever may be adding it |
| `ProtocolScores.GetRepairsTape` | src/tape_service/api/tape.py:102-117 | if no earlier-queried run was still adding it, it is out at the return and stays out |
| `ProtocolDirty.DirtyFlagIsTruthful` | src/tape_service/worker/generator.py:25-94 | one worker, every clear_dirty finding all that its run's config reads selected still selected, and no upstream edit that takes a document of the tape or of a running answer out of a selection in use: then, whenever the flag is down, every tape document lies in the current sources and dates |
| `ProtocolDirty.WideningIsQuiet` | src/tape_service/api/config.py:76-92 | this holds if no config write inside a full run's window narrows sources or dates |
| `ProtocolDirty.FailedRunKeepsFlag` | src/tape_service/worker/generator.py:123-143 | a run that fails or is killed lowers the flag neither then nor at any later step |
| `ProtocolDirty.StaleFalseNeverClears` | src/tape_service/worker/generator.py:93-94 | a run started from a scan that saw the flag down never lowers it and never empties the tape, however stale the scan |
| `ProtocolWitness.AnyRunCanTie` | src/tape_service/store/lock.py:29-45 | every interleaving in which a run has a document left to add goes on, with documents only added upstream, to one in which two documents share a position |
| `ProtocolWitness.PositionsCanTie` | src/tape_service/worker/generator.py:53-85 | such interleavings exist, so positions do not stay distinct in all |
| `ProtocolWitness.NarrowingWriteIsLost` | src/tape_service/worker/generator.py:25-94 | for every two configs of which the second drops a source and date of the first, an interleaving with one worker ends with the second stored, the flag down and a document of that source and date shown |
| `ProtocolSolo.RunsAreMachineRuns` | src/tape_service/worker/generator.py:16-153 | every branch, failure and duration of generate_for_user as specified is a run of the machine's process alone, ending in the same state |
| `ProtocolSolo.GetIsMachineRun` | src/tape_service/api/tape.py:53-147 | so is GET /tape, with its items, next position and repair |
| `ProtocolSolo.ReplyIsMachines` | src/tape_service/api/tape.py:53-147 | for agreeing states the sequential reply has the items and the next position of the machine's answer, in every branch |
| `ProtocolSolo.GetAgrees` | src/tape_service/api/tape.py:102-117 | and leaves the same state |
| `ProtocolSolo.SelectIsMachineAnswer` | src/tape_service/db/candidates.py:34-51 | the SELECT over the score table is an answer the machine's query may give |
| `ProtocolSolo.SaveIsSeen` | src/tape_service/db/score.py:14-39 | a stored score is one more scored document for its own user's machine and none for another's |
| `Protocol.OutsideIsFree` | src/tape_service/worker/listener.py:76-105 | the machine lets processes start, time pass, documents change and scores come from elsewhere at any moment |
| `Protocol.ProcessesAreFree` | src/tape_service/store/lock.py:31-45 | and every unfinished process go on, fail or be killed |
| `ProtocolSolo.PostIsMachineRun` | src/tape_service/api/tape.py:150-188 | so is POST /score, new or repeated |
| `ProtocolSolo.HandleIsMachineRun` | src/tape_service/worker/listener.py:84-96 | so is the listener's handler |
| `ProtocolSolo.PutIsMachineRun` | src/tape_service/api/config.py:76-92 | so is an accepted PUT /config |
| `Generator.Prepare` | src/tape_service/worker/generator.py:53-65 | what a run reads or deletes first, under a failure at any of its calls |
| `Generator.PublishAdded` | src/tape_service/worker/generator.py:86-91 | publishes one event per appended pair, in order; on a failure a prefix of them |
| `Generator.Fill` | src/tape_service/worker/generator.py:67-91 | query, append and events, under a failure at any of its calls |
| `Generator.Settle` | src/tape_service/worker/generator.py:93-102 | clear_dirty for a full run, then the ok record |
| `Generator.Commit` | src/tape_service/worker/generator.py:67-122 | everything after the reads: new tape, flag, records and events |
| `Generator.Handle` | src/tape_service/worker/generator.py:123-143 | the error record and the two error events |
| `Generator.Body` | src/tape_service/worker/generator.py:52-143 | the whole inner try block: it raises exactly when one of its calls does, and the user's new state is given for every failure; a failing run publishes a prefix of its announcement and then the error events |
| `Worker.Open` | src/tape_service/worker/generator.py:43-50 | acquired, run record and started, under a failure at any of these calls |
| `Worker.UnderLock` | src/tape_service/worker/generator.py:36-153 | lock, region, release, then lock.released |
| `Worker.PublishReleased` | src/tape_service/worker/generator.py:144-153 | may be called only when nothing live is held under the run's token |
| `Worker.DropAll` | src/tape_service/worker/generator.py:29-33 | a dirty user without sources loses tape and flag without the lock |
| `Worker.Generate` | src/tape_service/worker/generator.py:16-153 | outcome and new state of a run for every failure; no other user's state changes |
| `Worker.Tick` | src/tape_service/worker/generator.py:156-165 | every listed user gets one run per listing, in order, with its listed flag, on the state the earlier turns left it in, whichever of them raised; no turn changes another user |
| `Worker.TickIsolates` | src/tape_service/worker/generator.py:161-165 | so users outside the list keep their state, and a user listed once ends as by a run of its own |
| `Worker.TickReachesEveryone` | src/tape_service/worker/generator.py:159-163 | over a scan of the config keys exactly the users with a config are listed, always with their own flag |
| `RunLaws.CacheAgreesWithQuery` | src/tape_service/worker/generator.py:53-85 | after a successful full run, walking with any page size ends and yields exactly the unscored documents of the selection, sorted as configured, at 0 to n-1 |
| `RunLaws.TapeHoldsTheUnscored` | src/tape_service/worker/generator.py:53-85 | over the tables: a successful rebuild leaves exactly, and a top-up adds to what was there exactly, the documents of the user's sources, from dateFrom to dateTo inclusive, that no role of this user has scored |
| `RunLaws.RebuildSorts` | src/tape_service/worker/generator.py:53-85 | a rebuild numbers them from 0 by publication, in the configured order |
| `RunLaws.OthersScoresDoNotMatter` | src/tape_service/db/candidates.py:40-43 | what another user scores changes no run |
| `RunLaws.ExcludesShortTape` | src/tape_service/worker/generator.py:59-65 | a tape of up to ten thousand entries is excluded whole |
| `RunLaws.ExcludesTenThousand` | src/tape_service/worker/generator.py:59-65 | of a longer one its first ten thousand entries |
| `RunLaws.RebuildLists` | src/tape_service/worker/generator.py:53-85 | a rebuild lists the answer, numbered from 0 |
| `RunLaws.IncrementalCovers` | src/tape_service/worker/generator.py:57-85 | a top-up keeps old entries in place, puts new ones strictly behind them in query order, and leaves no queried document out |
| `RunLaws.SecondRunAddsNothing` | src/tape_service/worker/generator.py:57-85 | a second run over unchanged data adds and moves nothing, also when the tape is longer than the exclude page |
| `RunLaws.SizesAddUp` | src/tape_service/worker/generator.py:92 | size after = size before - removed + added |
| `RunLaws.SuccessInFull` | src/tape_service/worker/generator.py:43-153 | event by event: acquired, started, one per entry made new, regenerated with the number made new and the number deleted, completed ok, released, under one run id; the counts are those of the tape before and after |
| `RunLaws.SuccessTellsEveryEntry` | src/tape_service/worker/generator.py:86-91 | the entry events name exactly the entries made new, at their positions, in position order |
| `RunLaws.FailureInFull` | src/tape_service/worker/generator.py:35-153 | what a failing run publishes, by the failing call: after the opening it ends with added 0, what it had deleted, error, released |
| `RunLaws.EventsReplayTheRun` | src/tape_service/worker/generator.py:43-153 | folding these events over the old tape gives the new tape |
| `RunLaws.RemovalsReplay` | src/tape_service/api/tape.py:104-116 | so do the events of a read that takes entries out |
| `RunLaws.RemoversTell` | src/tape_service/api/tape.py:177-187 | so does the event of a score, and of the listener when it has removed something |
| `RunLaws.ReleasedExactlyOnce` | src/tape_service/worker/generator.py:144-153 | whatever fails, lock.released is published once, as the last event, if and only if the lock was got |
| `RunLaws.TokenIsGone` | src/tape_service/worker/generator.py:144-147 | by then the lock key is gone if the run stayed within its TTL, and else it has expired; nothing live is held either way |
| `RunLaws.RecordsOfRun` | src/tape_service/worker/generator.py:45-131 | the exact run records by the failing call: none, running, then ok, or error, or both when a call after a served finish_run fails |
| `RunLaws.RaisesByCall` | src/tape_service/worker/generator.py:43-143 | a run that got the lock raises exactly when the failing call is one it makes, else returns its kind and the number of entries made new |
| `RunLaws.SkipsOrRaises` | src/tape_service/worker/generator.py:25-40 | one that does not get so far is skipped, or raises on one of the calls it still makes |
| `RunLaws.RetryCompletes` | src/tape_service/worker/generator.py:52-143 | wherever a run fails, a later run of its kind over the same data lists the same documents in the same order as if nothing had failed |
| `RunLaws.FlagStaysUpIff` | src/tape_service/worker/generator.py:43-96 | the raised flag of a full run that got the lock stays up if and only if the failing call is one of the opening calls, the deletion, the query, the append, one of the entry events, or a clear_dirty that was not served; a top-up changes no config |
| `TapeApi.WalkRows` | src/tape_service/api/tape.py:102-139 | the loop returns the items and takes exactly the page's scored rows out of the tape, with one event each |
| `TapeApi.ReadTape` | src/tape_service/api/tape.py:53-147 | replies and repairs as the two functions of the state say, whose meaning the next rows and `ProtocolSolo.ReplyIsMachines` give |
| `TapeApi.ReplyShows` | src/tape_service/api/tape.py:86-147 | the reply shows exactly the entries of its page that exist and that no role of this user has scored, in the stored display mode |
| `TapeApi.EmptyPageEnds` | src/tape_service/api/tape.py:62-84 | a page without rows has no items and no next page |
| `TapeApi.PreparingExactly` | src/tape_service/api/tape.py:76-78 | the tape is in preparation exactly when it is empty under a raised flag |
| `TapeApi.NewcomerReadsNothing` | src/tape_service/api/tape.py:61-68 | a user without a config reads an empty page in the compact mode |
| `TapeApi.OthersScoresDoNotShow` | src/tape_service/api/tape.py:31-33 | another user's score changes neither the reply nor what is left |
| `TapeApi.RemovalsExact` | src/tape_service/api/tape.py:104-116 | one event for every row taken out, and no other |
| `TapeApi.SubmitScore` | src/tape_service/api/tape.py:150-188 | a repeated score is refused and one for an unknown document, role or user raises, with nothing changed; a new one is stored, its entry removed and the event published even if there was no entry |
| `TapeApi.Handle` | src/tape_service/worker/listener.py:76-105 | a readable payload removes the entry and tells so only if it was there; an unreadable one changes nothing |
| `TapeApi.WriteConfig` | src/tape_service/api/config.py:61-98 | sources outside the permitted ones are refused and nothing changes; else the config is stored dirty with exactly these sources |
| `TapeApi.WrittenConfigReadsBack` | src/tape_service/api/config.py:76-97 | what is stored is what the next read finds, every field, with the flag up, and one event tells of it |
| `RateLimit.TokenBucket.Allow` | src/tape_service/auth/rate_limit.py:24-34 | the queues after the call are those of the history, and the answer is that of the history |
| `RateLimit.AllowsExactly` | src/tape_service/auth/rate_limit.py:24-34 | if the calls of its key took the mutex in clock order, a call passes exactly when fewer than capacity passed calls of its key lie in the closed window before it |
| `RateLimit.BetweenCounts` | src/tape_service/auth/rate_limit.py:26-31 | the count is of calls in the closed interval |
| `RateLimit.EveryWindowHolds` | src/tape_service/auth/rate_limit.py:24-34 | under the same condition no closed interval of window length holds more than capacity passed calls of that key |
| `RateLimit.QueuesStaySmall` | src/tape_service/auth/rate_limit.py:28-33 | a queue never exceeds the capacity, in whatever order calls come |
| `RateLimit.QueuesAscend` | src/tape_service/auth/rate_limit.py:28-33 | it ascends if its key's calls come in clock order |
| `RateLimit.WindowsHoldInAnyOrderIff` | src/tape_service/auth/rate_limit.py:25-34 | the bound holds for every history, ordered or not, if and only if the capacity is at most 1 or the window negative |
| `RateLimit.AnswersExactInAnyOrderIff` | src/tape_service/auth/rate_limit.py:25-34 | the answers are exact for every history if and only if the capacity is not positive |
| `RateLimit.KeysAreIndependent` | src/tape_service/auth/rate_limit.py:28 | an answer depends on the key's own calls only |
| `Sessions.SessionStore.Issue` | src/tape_service/store/sessions.py:37-51 | afterwards the stored records reflect a history with the new session |
| `Sessions.SessionStore.Validate` | src/tape_service/store/sessions.py:54-90 | succeeds exactly when the history says so, with the issued user, creation time and expiry; raises only on a record the service did not write |
| `Sessions.SessionStore.Revoke` | src/tape_service/store/sessions.py:134-135 | afterwards the records reflect the revocation |
| `Sessions.AcceptsExactly` | src/tape_service/store/sessions.py:54-90 | a session is accepted if and only if issued, not revoked since, younger than the absolute limit, and last used less than the idle time ago |
| `Sessions.GrantsWhatWasIssued` | src/tape_service/store/sessions.py:37-51 | whatever happens after an issue, what is granted names the issued user, the time of the issue and the absolute limit from then on |
| `Sessions.FirstUse` | src/tape_service/store/sessions.py:54-80 | a session just issued is accepted exactly within the idle and the absolute limit |
| `Sessions.OwnRecordsAreNotForeign` | src/tape_service/store/sessions.py:62-77 | validate never raises on what the service has stored |
| `Sessions.RefusedIsOver` | src/tape_service/store/sessions.py:78-80 | a session refused or revoked once is never accepted again unless issued again |
| `Sessions.ExpiryNeverMoves` | src/tape_service/store/sessions.py:82-90 | however often it is used, owner, creation time and expiry stay |
| `Sessions.SessionsAreIndependent` | src/tape_service/store/sessions.py:21-26 | a session's fate depends on its own calls only |
| `Scheduler.Platform.AddTask` | docs/sql/02-ddl.sql:781-796 | one task per existing plugin at status 0, or scheduled at once; else everything stays |
| `Scheduler.Platform.Schedule` | docs/sql/02-ddl.sql:897-917 | a start in the past raises and changes nothing; else one new pending row and status 10 |
| `Scheduler.ScheduledExact` | docs/sql/02-ddl.sql:912-913 | table by table: the new row and status 10 |
| `Scheduler.Platform.Unschedule` | docs/sql/02-ddl.sql:919-935 | the row is gone, the status set if given; an unknown status undoes everything |
| `Scheduler.UnscheduledExact` | docs/sql/02-ddl.sql:925-931 | table by table: the row and the given status |
| `Scheduler.Platform.Relevant` | docs/sql/02-ddl.sql:1029-1069 | nothing if no row is due, else a due row of a supported type with least start goes to one new session |
| `Scheduler.DueExact` | docs/sql/02-ddl.sql:1041-1048 | a row is due when its start lies strictly in the past and its plugin is of a kind the node runs; the one taken has least start |
| `Scheduler.HandedOutExact` | docs/sql/02-ddl.sql:1056-1066 | table by table: status 20, the row gone, an open session from now |
| `Scheduler.Platform.AddPlugin` | docs/sql/02-ddl.sql:798-833 | a new source or model plugin gets one task, scheduled at once if it is active; a plugin of neither kind, or a taken id, is refused |
| `Scheduler.Platform.Finish` | docs/sql/02-ddl.sql:1008-1027 | stops the session, and schedules the task again if its plugin has a timer; a timer in the past undoes everything |
| `Scheduler.FinishExact` | docs/sql/02-ddl.sql:1008-1027 | over the tables: a source or model plugin with a timer gets exactly one new row, its interval from now, and status 10; any other task gets none and status 50; a negative timer undoes everything |
| `Scheduler.Platform.Broke` | docs/sql/02-ddl.sql:983-995 | stops the session and records the error; an unknown session or a missing comment undoes everything |
| `Scheduler.StoppedExact` | docs/sql/02-ddl.sql:989-990 | table by table: the session's stop and the status given |
| `Scheduler.Platform.PluginUpdateActive` | docs/sql/02-ddl.sql:835-852 | activation schedules the plugin's task, or raises if it has none; deactivation takes all its rows off |
| `Scheduler.Platform.Deactivate` | docs/sql/02-ddl.sql:847 | every row of the task is unscheduled with status 80, and no other |
| `Scheduler.DeactivatedExact` | docs/sql/02-ddl.sql:847 | table by table: the rows of the task and no other, and status 80 if it had any |
| `Scheduler.RowsAreConserved` | docs/sql/02-ddl.sql:897-1069 | in every reachable state rows created = pending + handed out + unscheduled, and sessions = rows handed out |
| `Scheduler.NextExists` | docs/sql/02-ddl.sql:1041-1048 | if any row is due, one with least start exists |
| `Scheduler.UnscheduleKeepsTensIff` | docs/sql/02-ddl.sql:919-935 | unschedule keeps "status 10 has a pending row" if and only if the task ends at another status or has another row |
| `Scheduler.UnscheduleCanBreakTens` | docs/sql/02-ddl.sql:925-931 | a null status and a task's only row break it |
| `Scheduler.TensAfterHandedOut` | docs/sql/02-ddl.sql:1056-1057 | handing a row out keeps it |
| `Scheduler.TensAfterDeactivated` | docs/sql/02-ddl.sql:847 | deactivating a plugin keeps it |

## Left out

- FastAPI, WebSocket forwarding, logging, settings, pools, the listener's thread and reconnects: a listener that is down is a remover that does not run.
- Redis and Postgres internals: `SET NX EX`, `ZADD NX`, `ZREM`, `ZRANGE`, `ZRANGEBYSCORE`, a MULTI block and one SELECT are single steps; SCAN yields every key present throughout.
- JSON, ISO dates, the hash and token generation are opaque; the hash is taken to be injective and lock tokens fresh; times are integers (reals in the limiter).
- Positions are integers; Redis stores doubles, exact below 2^53.
- `int()` on a scanned key accepts spaces, underscores, a plus sign and leading zeros; keys of that kind, which nobody writes, are outside the model.
- Names and roles of the answers, `GET /config`, verdict values and comments of scores, the trimming of the run stream to about a hundred entries, `validate_async` (a copy of `validate`), `mark_dirty` and `count_entries` as such.
- Published events in the interleaving machine: the order of events of different processes is not claimed.
- One user per interleaving machine: other users share no key (`Keys.KeysNeverCollide`), only the run counter, whose values the machine does not use.
- ProtocolPositions.PositionsStayDistinct: does not cover interleavings in which a superseded run appends, because it can fail in them.
- ProtocolReaders.PagingIsStable: inherits that condition; without distinct positions a page boundary can hide an entry.
- ProtocolDirty.DirtyFlagIsTruthful: excludes upstream edits that take a tape document out of the selection, because the service does not recheck documents it has listed.
- Store.Redis.AppendEntries: when the connection breaks, commands Redis has not served by then are never served. With a client-side time-out Redis may serve the rest of the pipeline after the exception, and even after the release; neither model has that.
- ProtocolSolo.PostIsMachineRun: failures inside API requests are steps of the machine, but have no sequential counterpart.
- Generator.Body: the failure is one per run, and the calls of the error handler itself succeed.
- Worker.UnderLock: the release script and the last publish succeed.
- Worker.Generate: the query's answer belongs to one moment of the run, and the tape does not change under it; the interleavings are the machine's matter.
- Sessions.SessionStore.Validate: GET and the reading of the clock are one instant, and calls do not overlap; an overlapping revoke can lose against a validate.
- Sessions.SessionStore.Issue: idle times below one second, which Redis refuses, are not excluded.
- Scheduler.Platform.Schedule: null task ids, the node argument (used by no statement), integer overflow of the serials and other writers of these tables are not modelled; a plugin once present stays, with its kind, and the rows of tasks.status do not change.
- The rest of docs/sql/02-ddl.sql: views other than plugins.complete, analytics, embeddings, `tasks.stop`.
