# Verification of the search engine and of the Asio example programs

This project models, in Dafny, the parts of the repository that carry hard properties, and proves
those properties for all inputs, all runs and all schedules.

**The search engine** is four stages. `HtmlParser` strips tags with a two-state machine and writes
records separated by `\3` and newlines. `RecordFile` shows exactly when the index reads the same
documents back. `InvertedIndex` and `PostingLists` build the forward and the weighted inverted index
and show that it agrees with a scan of all documents. `QueryMerge` and `Searcher` answer queries by
merging posting lists and ranking. `SearchEngine` puts the stages together: the answer is the ranked
brute-force scan, and every hit comes with a snippet. `Text` and `Util` hold the string functions and
the word cutter. The segmenter is a parameter, a total function from text to tokens; only the
end-to-end result assumes more, that tokens are pieces of their text.

**The concurrent programs** are transition systems over every interleaving of their steps.

- `ForkJoinPool`, `ForkJoinSystem`, `ForkJoinProgress`, `ForkJoinDeadlock`, `ForkJoinSort`, `SortCalls`,
  `SortEnds`: the pool with reference-counted work groups and helping joiners, its shutdown, exactly when it deadlocks,
  and the parallel sort on top.
- `Actors`, `TokenRing`, `TokenRingRuns`: the actor token ring for any number of actors and any value.
- `StagePipeline`, `PipelineEnds`: queues that can be stopped between any number of stages.
- `TimeoutSession`: one session with its timers, deadlines and the timer used as a condition variable.
- `ChatFraming`, `ChatServer`: the message codec over a byte stream, the room and its sessions.
- `ThrottlingProxy`: the token bucket, with bounds that are met exactly.
- `IcmpChecksum`: the ones' complement checksum of RFC 792 (ICMP checksum field) and section 1 of
  RFC 1071, with the exact condition under which 32-bit arithmetic is enough.

What the source updates in place is a class whose methods are proved to compute specification
functions; the transition systems are made of the same functions, and the theorems are lemmas about
them. `Common`, `Sums` and `Bytes` are shared helpers.

Four properties that one might expect do not hold. Each is stated with a concrete input and the exact
condition, and in each case the model follows the code.

- The pool can deadlock when a function joins an executor that another function created
  (`ForkJoinDeadlock.ForeignJoinDeadlocks`): exactly when a running function of the joined group waits,
  through other joins, for a function on the caller's own stack
  (`ForkJoinDeadlock.DeadlocksExactlyWhen`).
- A record with an empty content does not survive the compressing split
  (`RecordFile.EmptyContentIsLost`): exactly the clean documents do (`RecordFile.RoundTrip`).
- The checksum fails for some bodies longer than 131068 bytes (`IcmpChecksum.OneByteMoreCanFail`):
  exactly when the number of 32-bit wraps is not a multiple of 0xFFFF (`IcmpChecksum.ValidIffNoWrapLost`).
- The timeout server, whose comments give the output deadline to the sending of a message, closes
  sessions that have nothing left to send (`TimeoutSession.LiveSessionStopped`), because the deadline is
  not reset when a write completes (`TimeoutSession.StopsExactlyWhen`).

`dafny verify dfyconfig.toml` verifies the whole project.

## Model

| member | source | states |
|---|---|---|
| `ForkJoinPool.ForkJoinPool.DoWorkStarted` | data/input/boost_asio/example/cpp14/executors/fork_join.cpp:104-108 | the first function of a group takes a use of the pool; nothing else changes |
| `ForkJoinPool.ForkJoinPool.DoWorkFinished` | data/input/boost_asio/example/cpp14/executors/fork_join.cpp:111-118 | the last function of a group gives the use back and wakes every sleeper |
| `ForkJoinPool.ForkJoinPool.DoExecute` | data/input/boost_asio/example/cpp14/executors/fork_join.cpp:122-138 | true exactly when more than 16 functions per thread are queued, the queue then unchanged; else the function is queued last and one sleeper woken |
| `ForkJoinPool.ForkJoinPool.ExecuteNext` | data/input/boost_asio/example/cpp14/executors/fork_join.cpp:73-82 | takes the front of the queue, or reports that it is empty and changes nothing |
| `ForkJoinPool.ForkJoinPool.StopThreads` | data/input/boost_asio/example/cpp14/executors/fork_join.cpp:141-146 | gives back the pool's own use and wakes every sleeper |
| `ForkJoinPool.ForkJoinPool.NewExecutor` | data/input/boost_asio/example/cpp14/executors/fork_join.cpp:161-165 | an executor starts with a counter of its own at zero |
| `ForkJoinSystem.StepPlaced` | data/input/boost_asio/example/cpp14/executors/fork_join.cpp:73-138 | every step of every thread keeps each function in exactly one place, queued, on one stack frame or done, and the queue in submission order |
| `ForkJoinSystem.StepAccounting` | data/input/boost_asio/example/cpp14/executors/fork_join.cpp:85-146 | every step keeps the group counters and the use count exact, the inline path included |
| `ForkJoinSystem.PoolAccounting` | data/input/boost_asio/example/cpp14/executors/fork_join.cpp:24-146 | in every run each work count is the number of its functions queued or executing, use_count_ is 1 until stopped plus the number of busy groups, the queue holds at most 16 * threads + 1, each function has run once unless it is still queued |
| `ForkJoinSystem.InlineExactlyWhenFull` | data/input/boost_asio/example/cpp14/executors/fork_join.cpp:122-138 | at every step of every run a submitted function is run on the submitter's stack if and only if the queue holds 16 * threads + 1 functions, and is queued last otherwise |
| `ForkJoinSystem.TakenInOrder` | data/input/boost_asio/example/cpp14/executors/fork_join.cpp:73-82 | in every run what a thread takes from the queue was submitted before everything that stays in it |
| `ForkJoinSystem.QueueBoundAttained` | data/input/boost_asio/example/cpp14/executors/fork_join.cpp:126 | for every number of workers some run fills the queue to 16 * workers + 1 |
| `ForkJoinProgress.JoinReturnsWhenGroupFinished` | data/input/boost_asio/example/cpp14/executors/fork_join.cpp:193-199 | join returns if and only if every function submitted so far through its executor has run once and finished |
| `ForkJoinProgress.WorkerLeavesWhenAllFinished` | data/input/boost_asio/example/cpp14/executors/fork_join.cpp:39-42 | a worker leaves its loop if and only if the pool is stopped and every function has run once and finished |
| `ForkJoinProgress.JoinAndShutdownSafety` | data/input/boost_asio/example/cpp14/executors/fork_join.cpp:39-59 | the two equivalences above after any run from any number of workers and outside threads |
| `ForkJoinProgress.StaysFinished` | data/input/boost_asio/example/cpp14/executors/fork_join.cpp:55-59 | once a worker may leave, no later step adds a function: all of them have run exactly once for good |
| `ForkJoinProgress.StepSleepers` | data/input/boost_asio/example/cpp14/executors/fork_join.cpp:39-42 | a thread that sleeps un-notified still has its loop condition true, after every step |
| `ForkJoinProgress.StepWakeUps` | data/input/boost_asio/example/cpp14/executors/fork_join.cpp:122-138 | no wake-up is lost: every step keeps a worker awake, or a joiner about to look at the queue for each queued function |
| `ForkJoinProgress.QueuedMeansCanStep` | data/input/boost_asio/example/cpp14/executors/fork_join.cpp:122-138 | while anything is queued some un-notified thread is not asleep and will look at the queue |
| `ForkJoinDeadlock.TrapStays` | data/input/boost_asio/example/cpp14/executors/fork_join.cpp:73-146 | running functions each of which waits for one of them stay so under every step of every thread |
| `ForkJoinDeadlock.StuckMeansIdle` | data/input/boost_asio/example/cpp14/executors/fork_join.cpp:39-59 | a state in which no thread can step and no function is in such a trap has no work left and no thread inside join or the destructor |
| `ForkJoinDeadlock.TrapClosesExactlyWhen` | data/input/boost_asio/example/cpp14/executors/fork_join.cpp:193-199 | a step leaves a trap behind if and only if there was one or the step is a join on a group one of whose running functions waits, directly or through others, for a function on the caller's stack |
| `ForkJoinDeadlock.DeadlocksExactlyWhen` | data/input/boost_asio/example/cpp14/executors/fork_join.cpp:39-199 | for any number of workers and threads, any schedule and any joins: functions are trapped if and only if some join closed such a cycle, and a stuck pool is finished if and only if none did |
| `ForkJoinDeadlock.FinishesExactlyWhen` | data/input/boost_asio/example/cpp14/executors/fork_join.cpp:39-199 | without a closing join some thread can step until all work is finished; after one no continuation finishes it |
| `ForkJoinDeadlock.WaitsForLater` | data/input/boost_asio/example/cpp14/executors/fork_join.cpp:193-199 | functions that join only their own executors wait only for functions started later |
| `ForkJoinDeadlock.NoDeadlock` | data/input/boost_asio/example/cpp14/executors/fork_join.cpp:39-199 | for any number of workers and threads and any schedule in which functions join only executors they created, no join closes a cycle and some thread can step until all work is finished |
| `ForkJoinDeadlock.ForeignJoinDeadlocks` | data/input/boost_asio/example/cpp14/executors/fork_join.cpp:193-199 | a concrete run in which a function joins the executor it was submitted to and the pool is stuck with work outstanding |
| `ForkJoinSort.HalvesReady` | data/input/boost_asio/example/cpp14/executors/fork_join.cpp:252-258 | when a call merges, both halves have returned, are sorted and belong to it alone |
| `ForkJoinSort.StepSortInv` | data/input/boost_asio/example/cpp14/executors/fork_join.cpp:246-264 | every statement and every pool step keeps ranges disjoint, finished ranges sorted and the elements the same |
| `ForkJoinSort.SortsUnderEverySchedule` | data/input/boost_asio/example/cpp14/executors/fork_join.cpp:246-264 | under every schedule the array is always a permutation of the input, and sorted when the outermost call is over |
| `ForkJoinSort.NoDataRace` | data/input/boost_asio/example/cpp14/executors/fork_join.cpp:255-262 | two threads about to sort or merge never touch a common position |
| `ForkJoinSort.RecursionEnds` | data/input/boost_asio/example/cpp14/executors/fork_join.cpp:246-264 | the calls execute at most Cost(n) statements in all, whatever the schedule |
| `SortCalls.ForksExactlyWhenLarge` | data/input/boost_asio/example/cpp14/executors/fork_join.cpp:249-263 | in every run a call on at most 32768 elements makes no other call, and one on more has made exactly two, on its first n / 2 elements and on the rest, when it is over |
| `ForkJoinSort.SortNeverStalls` | data/input/boost_asio/example/cpp14/executors/fork_join.cpp:246-264 | some thread can move until the outermost call is over and the array sorted |
| `SortEnds.EverySortEnds` | data/input/boost_asio/example/cpp14/executors/fork_join.cpp:246-264 | spurious wake-ups aside the number of steps of any run, waiting included, is bounded by the input length and the number of workers |
| `Util.ReadFile` | util.hpp:15-31 | the result is the file without its newlines |
| `Util.KeepExactly` | util.hpp:97-105 | the tokens kept are those at increasing positions that are exactly the positions of no stop word: every occurrence once, in its place |
| `Util.JiebaUtil.CutStringHelper` | util.hpp:94-106 | erasing in place while iterating leaves exactly the tokens that are no stop words, each occurrence once, in order |
| `Util.JiebaUtil.InitJiebaUtil` | util.hpp:79-92 | the stop words are the lines of the dictionary |
| `Text.LowerExactly` | index.hpp:142-151 | the lower-case form of a word is the one string without capitals that differs from it in case only |
| `HtmlParser.ParseContent` | parser.cc:144-169 | the loop computes Visible from the status LABLE |
| `HtmlParser.VisibleConcat` | parser.cc:151-166 | the tag stripper is compositional from either status |
| `HtmlParser.VisibleIsSubsequence` | parser.cc:151-166 | its output has no tag opener and no newline and is a subsequence of the input, newlines read as spaces |
| `HtmlParser.TagEndsInContent` | parser.cc:151-166 | after a complete tag the status is CONTENT whatever it was before, and the tag shows nothing |
| `HtmlParser.PlainTextIsVisible` | parser.cc:156-162 | in status CONTENT a text without tag openers and newlines is kept whole |
| `HtmlParser.CharacterShows` | parser.cc:153-163 | in CONTENT a character other than the tag opener is kept, a newline as a space; in LABLE nothing is, and only the tag closer changes the status |
| `HtmlParser.ParseTitle` | parser.cc:124-141 | the title lies between the first opening and the first closing tag; fails exactly when there is none |
| `HtmlParser.TaggedTitle` | parser.cc:126-139 | text between <title> and </title> is the title when neither it nor what precedes has a tag opener |
| `HtmlParser.UrlOf` | parser.cc:174-176 | the url is the documentation's address followed by the path after data/input |
| `HtmlParser.ParsedAllConcat` | parser.cc:97-119 | the documents of two lists of files together are those of the first and then those of the second |
| `HtmlParser.ParsedOne` | parser.cc:97-119 | one file gives one document, with its title, visible text and url, if it is readable and has a title, and none otherwise |
| `HtmlParser.ParseHtml` | parser.cc:95-121 | the documents of the files in order, a file without one being skipped; every readable file with a title is among them |
| `HtmlParser.SaveHtml` | parser.cc:180-204 | the records one after the other, each ended by a newline |
| `HtmlParser.RecordBytes` | parser.cc:190-199 | the bytes of a record: title, 3, content, 3, url, newline |
| `RecordFile.RecordFields` | parser.cc:190-197 | the compressing split gives the three fields back if and only if none contains the separator and the content is not empty |
| `RecordFile.RoundTrip` | index.hpp:89-126 | saving, reading lines and splitting rebuilds the list of documents with ids from 0 if and only if every document is clean |
| `RecordFile.TitleShows` | parser.cc:151-166 | the title, stripped from status CONTENT, appears in the content in one piece |
| `RecordFile.ParsedAllClean` | parser.cc:95-121 | for files without separators whose title starts with text, everything the parser produces is clean |
| `RecordFile.EmptyContentIsLost` | parser.cc:95-121 | a file that is only an empty title becomes a document with an empty content, which does not read back |
| `InvertedIndex.Index.GetForwardIndex` | index.hpp:57-64 | the document at that id, or nothing if there is none |
| `InvertedIndex.Index.GetInvertedList` | index.hpp:67-75 | the posting list a scan of all documents would give, or nothing exactly when that list is empty |
| `InvertedIndex.Index.CountWords` | index.hpp:136-153 | the table holds exactly the words of the document, each with its number of occurrences in the title and in the content |
| `InvertedIndex.Index.AppendPostings` | index.hpp:157-165 | one posting for each word of the table at the end of its list, all other lists unchanged, in whatever order the table is walked |
| `InvertedIndex.Index.BuildForwardIndex` | index.hpp:109-126 | appends the three fields with the next id |
| `InvertedIndex.Index.BuildInvertedIndex` | index.hpp:128-168 | after the new document the index again agrees with a scan of all of them |
| `InvertedIndex.Index.BuildIndex` | index.hpp:78-107 | after any input the forward index is the old one plus the lines' documents and the inverted index agrees with the scan |
| `InvertedIndex.IndexWeightsAddUp` | index.hpp:155-165 | over the whole index the postings of a document weigh ten times the tokens of its title plus the tokens of its content |
| `PostingLists.PostingsSound` | index.hpp:157-165 | a posting list has strictly increasing ids, each naming a document that contains the word, with its weight |
| `PostingLists.PostingsComplete` | index.hpp:157-165 | no document that contains the word is missing from its list |
| `PostingLists.CountsExact` | index.hpp:140-153 | counting loop by loop gives exactly the occurrences of each word |
| `PostingLists.NewDocumentExact` | index.hpp:157-165 | appending the postings of one document keeps the index exact for every word |
| `PostingLists.WeightsAddUp` | index.hpp:155-161 | the weights of a document over all its words add up to ten times the title length plus the content length |
| `PostingLists.ScoreConcat` | searcher.hpp:70-84 | the score for two queries together is the sum of the scores |
| `PostingLists.ScoreIgnoresOrder` | searcher.hpp:70-84 | the score does not depend on the order of the query words |
| `QueryMerge.MergeIsScan` | searcher.hpp:70-86 | merging the posting list of one more word turns the scan for a query into the scan for the longer query |
| `QueryMerge.SortedValuesAreRanked` | searcher.hpp:87-96 | the emptied and sorted table is the ranked scan: each match once, none missing, best first |
| `Searcher.Searcher.Trigger` | searcher.hpp:70-86 | the table holds one entry per matching document with exact score and words |
| `Searcher.Searcher.Search` | searcher.hpp:60-112 | the answer holds every document in which a query word occurs exactly once and nothing else, by non-increasing weight; an item's weight is ten for each occurrence of each query word in the title plus one for each in the content, and its snippet is for the first query word that occurs |
| `Searcher.ScoreIsQueryWeight` | searcher.hpp:70-84 | the merged score of a document is that sum over the query words of occurrences in its title and content |
| `Searcher.GetDesc` | searcher.hpp:34-58 | "None" exactly when the word does not occur, case aside, else the window around its first occurrence |
| `Searcher.WindowHoldsMatch` | searcher.hpp:46-57 | the window starts 50 before the match or at 0, ends 100 after it or before the last character, the second "None" branch is dead, and it holds the whole match if and only if the word is at most 100 long and does not end on the last character |
| `Searcher.FoundWordHasSnippet` | searcher.hpp:34-58 | a word that occurs gets that window around its first occurrence, with the whole match in it unless the word is longer than 100 or ends on the last character |
| `SearchEngine.WordInContent` | searcher.hpp:99-107 | every word indexed for a document occurs in its content, case aside |
| `SearchEngine.EveryHitHasSnippet` | searcher.hpp:99-107 | a hit on a document whose title is in its content has such a snippet for the first query word that occurs in the document, never "None" |
| `SearchEngine.FileIsFound` | searcher.hpp:60-112 | every readable file whose title or visible text has a query word is in the answer, with its title, url and weight |
| `SearchEngine.Answer` | searcher.hpp:60-112 | parser, record file, index and search together: if the documents survive the record format, the ranked brute-force scan of them, in which every readable titled file with a query word is found; if moreover titles are plain and tokens are pieces of their text, every hit with a snippet of a query word |
| `Actors.RingMember.RegisterHandler` | data/input/boost_asio/example/cpp14/executors/actor.cpp:115-121 | the handler is appended |
| `Actors.RingMember.DeregisterHandler` | data/input/boost_asio/example/cpp14/executors/actor.cpp:124-140 | only the first matching handler is removed; without one nothing changes |
| `Actors.RingMember.HandleInit` | data/input/boost_asio/example/cpp14/executors/actor.cpp:230-237 | successor and caller are stored and the token handler takes the place of the init handler |
| `Actors.RingMember.HandleToken` | data/input/boost_asio/example/cpp14/executors/actor.cpp:239-251 | a positive token goes to the successor one smaller, a zero to the caller |
| `Actors.RingMember.CallHandler` | data/input/boost_asio/example/cpp14/executors/actor.cpp:156-168 | exactly the matching handlers registered at the start are called, in order |
| `Actors.IntReceiver.MessageHandler` | data/input/boost_asio/example/cpp14/executors/actor.cpp:201-206 | the message is queued last |
| `Actors.IntReceiver.Wait` | data/input/boost_asio/example/cpp14/executors/actor.cpp:190-197 | takes the oldest message |
| `TokenRing.StepOk` | data/input/boost_asio/example/cpp14/executors/actor.cpp:230-285 | every step of every actor and of main keeps init before tokens, tokens in place, apart and present |
| `TokenRingRuns.StepBooks` | data/input/boost_asio/example/cpp14/executors/actor.cpp:230-285 | every step conserves the tokens, keeps the per-member call counts exact and takes the distance to the end down by exactly one |
| `TokenRingRuns.EveryRun` | data/input/boost_asio/example/cpp14/executors/actor.cpp:230-285 | after any run of N actors from T: a token from i with value v is at (i + T - v) mod N, no member gets a token before its init message, tokens in boxes and zeros reported are together the tokens sent |
| `TokenRingRuns.RunsAreShort` | data/input/boost_asio/example/cpp14/executors/actor.cpp:257-285 | no run is longer than N * (T + 6) steps, and one of that length, and no other, is finished |
| `TokenRingRuns.StuckMeansFinished` | data/input/boost_asio/example/cpp14/executors/actor.cpp:257-285 | if no step is possible everything is done |
| `TokenRingRuns.CompleteRun` | data/input/boost_asio/example/cpp14/executors/actor.cpp:257-285 | a run that cannot go on has made T + 1 token handler calls at every member, N * (T + 1) in all, and given main N zeros |
| `StagePipeline.QueueImpl.Push` | data/input/boost_asio/example/cpp14/executors/pipeline.cpp:109-114 | the item is last and the sleeper is woken |
| `StagePipeline.QueueImpl.Stop` | data/input/boost_asio/example/cpp14/executors/pipeline.cpp:116-121 | the queue is stopped, its items stay, the sleeper is woken |
| `StagePipeline.QueueImpl.Pop` | data/input/boost_asio/example/cpp14/executors/pipeline.cpp:139-151 | the oldest item while there is one, else the end if stopped, else sleep |
| `StagePipeline.MakeUpper` | data/input/boost_asio/example/cpp14/executors/pipeline.cpp:263-265 | the line in upper case |
| `StagePipeline.DecimalReadsBack` | data/input/boost_asio/example/cpp14/executors/pipeline.cpp:275 | the printed number is digits without a leading zero that read back as the number |
| `StagePipeline.LongLinesExactly` | data/input/boost_asio/example/cpp14/executors/pipeline.cpp:250-268 | what filter and upper pass on are exactly the lines of more than five characters, by position, each occurrence once, with exactly a to z made capitals |
| `StagePipeline.StepOk` | data/input/boost_asio/example/cpp14/executors/pipeline.cpp:109-232 | every step keeps, for each queue, taken plus queued plus in hand equal to what the stage before makes of its own input |
| `StagePipeline.PopFalseMeansEnd` | data/input/boost_asio/example/cpp14/executors/pipeline.cpp:139-151 | pop returns false only when the stage before has finished and everything it could ever push has been taken |
| `StagePipeline.PrintsInOrder` | data/input/boost_asio/example/cpp14/executors/pipeline.cpp:158-232 | at every moment of every run the writer has printed a beginning of one fixed output |
| `StagePipeline.StuckMeansPrinted` | data/input/boost_asio/example/cpp14/executors/pipeline.cpp:158-232 | no deadlock, no lost wake-up: when no thread can go on all have finished and the whole output is printed |
| `StagePipeline.MainPrints` | data/input/boost_asio/example/cpp14/executors/pipeline.cpp:243-284 | for every input and interleaving the j-th line printed is the number j, a colon, a space and the j-th line longer than five characters in upper case, for exactly those lines |
| `PipelineEnds.StepWorks` | data/input/boost_asio/example/cpp14/executors/pipeline.cpp:109-232 | every step but a spurious wake-up uses up some of the work left |
| `PipelineEnds.EveryRunEnds` | data/input/boost_asio/example/cpp14/executors/pipeline.cpp:158-232 | the length of a run is bounded by the input and the number of spurious wake-ups |
| `TimeoutSession.TcpSession.Start` | data/input/boost_asio/example/cpp11/timeouts/server.cpp:145-168 | the session joins the channel and has one read, one output wait and two deadline waits pending |
| `TimeoutSession.TcpSession.Stop` | data/input/boost_asio/example/cpp11/timeouts/server.cpp:171-180 | leaves the channel, closes the socket, cancels the three timers |
| `TimeoutSession.TcpSession.Deliver` | data/input/boost_asio/example/cpp11/timeouts/server.cpp:187-194 | the line is queued last and the output actor woken |
| `TimeoutSession.TcpSession.OnRead` | data/input/boost_asio/example/cpp11/timeouts/server.cpp:205-245 | the first line of the buffer is taken; it is queued with a newline if it has text, an empty one answered with a newline only if nothing is queued, and the next read started; an error stops |
| `TimeoutSession.TcpSession.OnWait` | data/input/boost_asio/example/cpp11/timeouts/server.cpp:252-271 | sleeps again if there is nothing to send, else writes the front |
| `TimeoutSession.TcpSession.OnWrite` | data/input/boost_asio/example/cpp11/timeouts/server.cpp:283-299 | the front is gone and the wait starts again; an error stops |
| `TimeoutSession.TcpSession.OnInputDeadline` | data/input/boost_asio/example/cpp11/timeouts/server.cpp:306-326 | stops if the input deadline has passed, else waits again |
| `TimeoutSession.TcpSession.OnOutputDeadline` | data/input/boost_asio/example/cpp11/timeouts/server.cpp:306-326 | stops if the output deadline has passed, else waits again |
| `TimeoutSession.StepInputOk` | data/input/boost_asio/example/cpp11/timeouts/server.cpp:196-246 | every event keeps the lines handled plus the buffer equal to the bytes received |
| `TimeoutSession.StepOutputOk` | data/input/boost_asio/example/cpp11/timeouts/server.cpp:187-300 | every event keeps one output operation, the timer and the queue in step |
| `TimeoutSession.OneOutputOperation` | data/input/boost_asio/example/cpp11/timeouts/server.cpp:248-300 | of the pending operations, which are counted, a running session has exactly one on the output side, one read and one wait on each deadline; a maximal expiry means an empty queue, a write in flight is the queue front, lines are written in enqueue order |
| `TimeoutSession.NoLostWakeUp` | data/input/boost_asio/example/cpp11/timeouts/server.cpp:187-272 | with something queued, it is being written or the wait is over and its handler writes it |
| `TimeoutSession.SleepsWhenEmpty` | data/input/boost_asio/example/cpp11/timeouts/server.cpp:258-266 | over any run in which nothing is enqueued an empty session's output actor runs at most once, and then is asleep |
| `TimeoutSession.LinesHandled` | data/input/boost_asio/example/cpp11/timeouts/server.cpp:203-216 | the lines handled are exactly the complete lines received |
| `TimeoutSession.ReadAnswers` | data/input/boost_asio/example/cpp11/timeouts/server.cpp:214-237 | in every reached open session a read takes a line l: the queue grows by l and a newline if l has text, by a newline if l is empty and nothing was queued, else by nothing |
| `TimeoutSession.EnqueuedExactly` | data/input/boost_asio/example/cpp11/timeouts/server.cpp:187-240 | over every run the lines queued for the client are, in order, one such entry per line handled and each delivered message with its newline |
| `TimeoutSession.StopsExactlyWhen` | data/input/boost_asio/example/cpp11/timeouts/server.cpp:302-327 | a session is stopped if and only if an operation fails or a check finds 30 seconds gone since the last read or the last write was started |
| `TimeoutSession.DeadlinesAreChecked` | data/input/boost_asio/example/cpp11/timeouts/server.cpp:302-327 | once a deadline has passed its check can run |
| `TimeoutSession.EndsAfterStop` | data/input/boost_asio/example/cpp11/timeouts/server.cpp:171-185 | after stop each of the at most four pending handlers can run, runs once and starts nothing |
| `TimeoutSession.LiveSessionStopped` | data/input/boost_asio/example/cpp11/timeouts/server.cpp:276-293 | output_deadline_ is not reset by a completed write: a concrete run that closes a session with nothing to send, 19 seconds before its input deadline |
| `ChatFraming.ChatMessage.SetBodyLength` | data/input/boost_asio/example/cpp11/chat/chat_message.hpp:59-64 | the length is cut to 512 |
| `ChatFraming.ChatMessage.DecodeHeader` | data/input/boost_asio/example/cpp11/chat/chat_message.hpp:66-77 | accepts exactly a decimal number from 0 to 512 and stores it, else stores 0 |
| `ChatFraming.ChatMessage.EncodeHeader` | data/input/boost_asio/example/cpp11/chat/chat_message.hpp:79-84 | the header is the padded decimal length, the body is untouched |
| `ChatFraming.AcceptedExactly` | data/input/boost_asio/example/cpp11/chat/chat_message.hpp:66-77 | whatever the four bytes, atoi stays within int and the comparison after conversion to std::size_t accepts exactly 0 to 512 |
| `ChatFraming.DecodesEncoded` | data/input/boost_asio/example/cpp11/chat/chat_message.hpp:66-84 | decode_header undoes encode_header for every length up to 512 |
| `ChatFraming.StreamRoundTrip` | data/input/boost_asio/example/cpp11/chat/chat_server.cpp:101-136 | decoding the concatenation of encoded messages gives the messages back and goes on with what follows |
| `ChatFraming.FramesArePrefix` | data/input/boost_asio/example/cpp11/chat/chat_server.cpp:101-136 | the messages accepted from any stream are its bytes in order, and the rest does not start with a whole message |
| `ChatFraming.RelayedVerbatim` | data/input/boost_asio/example/cpp11/chat/chat_server.cpp:101-136 | messages accepted from any stream have bodies of at most 512 bytes and, passed on verbatim, decode to the same messages |
| `ChatFraming.AcceptedHeaders` | data/input/boost_asio/example/cpp11/chat/chat_message.hpp:66-77 | a header is accepted if and only if the digits after white space and a sign, up to anything else, are at most 512, and zero if the sign is a minus |
| `ChatFraming.EncodersHeaders` | data/input/boost_asio/example/cpp11/chat/chat_message.hpp:66-84 | of the accepted headers the encoder writes exactly those of blanks and then digits without leading zeros up to the end |
| `ChatFraming.OtherHeadersAccepted` | data/input/boost_asio/example/cpp11/chat/chat_message.hpp:66-77 | concrete headers on both sides of the two equivalences above: two accepted that the encoder never writes, and two refused |
| `ChatFraming.ChatMessage.ReadLoop` | data/input/boost_asio/example/cpp11/chat/chat_server.cpp:101-136 | the two read callbacks in turn deliver exactly Frames of the stream |
| `ChatServer.ChatSession.Start` | data/input/boost_asio/example/cpp11/chat/chat_server.cpp:84-88 | the session gets the recent messages and starts reading |
| `ChatServer.ChatSession.Deliver` | data/input/boost_asio/example/cpp11/chat/chat_server.cpp:90-98 | the message is queued last; a write starts only if none was in progress |
| `ChatServer.ChatSession.OnReadHeader` | data/input/boost_asio/example/cpp11/chat/chat_server.cpp:106-116 | on to the body, or out of the room |
| `ChatServer.ChatSession.OnReadBody` | data/input/boost_asio/example/cpp11/chat/chat_server.cpp:124-135 | every participant gets the message and the next header is read, or out of the room |
| `ChatServer.ChatSession.OnWrite` | data/input/boost_asio/example/cpp11/chat/chat_server.cpp:144-158 | the message in flight has been written and the next write is started if there is one; an error leaves the room |
| `ChatServer.ChatRoom.Join` | data/input/boost_asio/example/cpp11/chat/chat_server.cpp:43-48 | the participant is in the room and gets the recent messages in order |
| `ChatServer.ChatRoom.Leave` | data/input/boost_asio/example/cpp11/chat/chat_server.cpp:50-53 | only that participant is gone |
| `ChatServer.ChatRoom.Deliver` | data/input/boost_asio/example/cpp11/chat/chat_server.cpp:55-63 | the room keeps the end of what it had plus the message, 100 messages or all, the message last; every participant gets it queued once |
| `ChatServer.StepOk` | data/input/boost_asio/example/cpp11/chat/chat_server.cpp:43-159 | every callback keeps each session's written and queued messages equal to its stretch of the log |
| `ChatServer.StreamsAreExact` | data/input/boost_asio/example/cpp11/chat/chat_server.cpp:43-159 | after any run: written plus queued is the log from 100 messages before the join, or from the start, until leaving; the room remembers the end of the log, 100 messages or all; until a write error the front of the queue is in flight when there is one, and nothing else |
| `ChatServer.InRoomExactly` | data/input/boost_asio/example/cpp11/chat/chat_server.cpp:84-159 | after any run a session is in the room exactly until its reading has ended or a write has failed, and leaves exactly when an operation of its own fails or its next header is refused |
| `ChatServer.StepHeard` | data/input/boost_asio/example/cpp11/chat/chat_server.cpp:101-136 | every callback keeps a client's messages in the log, the header in hand and the unread bytes together equal to what it has sent |
| `ChatServer.LogIsWhatClientsSent` | data/input/boost_asio/example/cpp11/chat/chat_server.cpp:101-136 | after any run a client's messages in the log are a beginning of what its bytes decode to, verbatim and in order, the rest is in the unread bytes, and nothing is missing when reading has ended at a refused header |
| `ChatServer.QuietMeansWritten` | data/input/boost_asio/example/cpp11/chat/chat_server.cpp:138-159 | with no write in flight and none failed, everything has been written |
| `ChatServer.QueueFlushes` | data/input/boost_asio/example/cpp11/chat/chat_server.cpp:138-159 | as many successful writes as there are messages queued are possible and write them all |
| `ThrottlingProxy.Direction.AsyncSend` | data/input/boost_asio/example/cpp20/channels/throttling_proxy.cpp:38-40 | a waiting receiver gets the token, else the buffer, and when that is full the sender waits |
| `ThrottlingProxy.Direction.AsyncReceive` | data/input/boost_asio/example/cpp20/channels/throttling_proxy.cpp:53 | a buffered token is taken, a waiting sender gets its room, else the receiver waits |
| `ThrottlingProxy.Direction.ExpiresAfter` | data/input/boost_asio/example/cpp20/channels/throttling_proxy.cpp:42 | the next token is due one interval from now |
| `ThrottlingProxy.Direction.SpendToken` | data/input/boost_asio/example/cpp20/channels/throttling_proxy.cpp:54-62 | the inner loop forwards the token's bytes and never more, whatever the reads bring |
| `ThrottlingProxy.RunValid` | data/input/boost_asio/example/cpp20/channels/throttling_proxy.cpp:32-64 | every run conserves credit: every token issued is in the channel, in hand or forwarded |
| `ThrottlingProxy.ReachNeverGrows` | data/input/boost_asio/example/cpp20/channels/throttling_proxy.cpp:32-64 | no step adds to the bytes that can have been forwarded by a given time |
| `ThrottlingProxy.WindowBound` | data/input/boost_asio/example/cpp20/channels/throttling_proxy.cpp:32-84 | in any window of length D at most 20480 * (102 + D / 100 ms) bytes are forwarded |
| `ThrottlingProxy.StartBound` | data/input/boost_asio/example/cpp20/channels/throttling_proxy.cpp:32-84 | by time t since the start at most 20480 * (1 + t / 100 ms) |
| `ThrottlingProxy.WindowBoundAttained` | data/input/boost_asio/example/cpp20/channels/throttling_proxy.cpp:32-84 | the window bound is met exactly by some run, for every number of intervals |
| `ThrottlingProxy.StartBoundAttained` | data/input/boost_asio/example/cpp20/channels/throttling_proxy.cpp:32-84 | so is the bound from the start |
| `ThrottlingProxy.NoUnderflow` | data/input/boost_asio/example/cpp20/channels/throttling_proxy.cpp:61 | a read brings at most 4096 bytes and no more than the credit, so the subtraction never goes below zero |
| `IcmpChecksum.IcmpHeader.constructor` | data/input/boost_asio/example/cpp03/icmp/icmp_header.hpp:41 | all bytes zero |
| `IcmpChecksum.IcmpHeader.Encode` | data/input/boost_asio/example/cpp03/icmp/icmp_header.hpp:65-69 | the two bytes decode to the number, the others are unchanged |
| `IcmpChecksum.IcmpHeader.SetType` | data/input/boost_asio/example/cpp03/icmp/icmp_header.hpp:49 | the type reads back, no other byte changes |
| `IcmpChecksum.IcmpHeader.SetCode` | data/input/boost_asio/example/cpp03/icmp/icmp_header.hpp:50 | the code reads back, no other byte changes |
| `IcmpChecksum.IcmpHeader.SetChecksum` | data/input/boost_asio/example/cpp03/icmp/icmp_header.hpp:51 | the checksum field reads back, no other byte changes |
| `IcmpChecksum.IcmpHeader.SetIdentifier` | data/input/boost_asio/example/cpp03/icmp/icmp_header.hpp:52 | the identifier reads back, no other byte changes |
| `IcmpChecksum.IcmpHeader.SetSequenceNumber` | data/input/boost_asio/example/cpp03/icmp/icmp_header.hpp:53 | the sequence number reads back, no other byte changes |
| `IcmpChecksum.SumBody` | data/input/boost_asio/example/cpp03/icmp/icmp_header.hpp:78-87 | the loop computes the sum of the padded 16-bit words modulo 2^32 |
| `IcmpChecksum.FoldAndComplement` | data/input/boost_asio/example/cpp03/icmp/icmp_header.hpp:89-91 | the complement of the ones' complement sum |
| `IcmpChecksum.TwoFoldsSuffice` | data/input/boost_asio/example/cpp03/icmp/icmp_header.hpp:89-90 | two folds reduce any 32-bit sum |
| `IcmpChecksum.OnesSumIsResidue` | data/input/boost_asio/example/cpp03/icmp/icmp_header.hpp:78-90 | adding with end-around carry is adding modulo 0xFFFF with zero kept apart |
| `IcmpChecksum.ComputeChecksum` | data/input/boost_asio/example/cpp03/icmp/icmp_header.hpp:74-92 | only the checksum field changes; up to 131068 bytes of body it is the complement of the ones' complement sum with a zero field; the finished message sums to 0xFFFF exactly when the number of 32-bit wraps is a multiple of 0xFFFF |
| `IcmpChecksum.ChecksumIsComplement` | data/input/boost_asio/example/cpp03/icmp/icmp_header.hpp:74-92 | the stored checksum is the complement of the ones' complement sum of the message with a zero field if and only if the wraps lose nothing and do not leave 0 for 0xFFFF |
| `IcmpChecksum.ValidIffNoWrapLost` | data/input/boost_asio/example/cpp03/icmp/icmp_header.hpp:74-92 | that equivalence for every header and body |
| `IcmpChecksum.ShortBodiesNeverWrap` | data/input/boost_asio/example/cpp03/icmp/icmp_header.hpp:74-92 | for every header and every body of at most 131068 bytes the sum does not wrap and the finished message sums to 0xFFFF |
| `IcmpChecksum.OneByteMoreCanFail` | data/input/boost_asio/example/cpp03/icmp/icmp_header.hpp:74-92 | the bound is exact: a header and 131069 bytes of 0xFF get a checksum that does not hold |

## Left out

- Directory walking, file opening, HTTP serving, JSON output, logging, `main` of the parser: input and output. Unreadable files are a `None` text.
- Word segmentation: its library is not part of this model; it is a parameter `cut`.
- Tie order in the ranking: hash-map iteration and an unstable sort; any order of equal weights is allowed.
- std::sort and std::inplace_merge: library code. In `ForkJoinSort` they are any rearrangement of their range that meets their specification; `QueryMerge.SortByWeight` is an insertion sort that stands for std::sort.
- Integer width of weights, counters and positions in the search engine, which would need contents over 2 GB; widths are modelled in the ICMP, chat and proxy code.
- Malformed lines in BuildForwardIndex (fewer than three fields): the source reads past its vector there, so `InvertedIndex.Index.IndexLine` and `InvertedIndex.Index.BuildIndex` require well-formed lines; `RecordFile.RoundTrip` says which documents give them.
- Locale and encoding: characters are those of the "C" locale, upper and lower case are ASCII.
- That no stop word is ever an index key: filtering comes before lower-casing, so it does not hold.
- The double-checked singletons: their memory model.
- Fork/join pool: exceptions, thread creation (all workers exist from the start) and the thread pool's own destructor. The finish of a function and the next look at the loop condition are two steps here and one in the source, so more interleavings are covered than can happen.
- Fork/join pool: once it is being stopped only functions that run in it submit more work, as its destructor presumes; functions are names, except in the sort.
- Fork/join sort: stopping the pool while a sort runs; the elements are reals under the usual order.
- Actors: a handler vector modified during its own iteration; dispatch is over the handlers registered when the message arrived. The field `origin` of a token is only for the statements about runs. Thread pools are left out, any actor may run at any time.
- Pipeline: the executors that the stages are bound to; every stage is a thread that may run at any time. The source is the list of lines on standard input.
- Chat server: accepting connections and sockets; what a failed read had taken from the stream; sessions of a run are values numbered in the order of acceptance, the classes `ChatSession` and `ChatRoom` show the same functions computed in place.
- Timeout server: the UDP broadcaster, the acceptor and the set of subscribers (the same as the chat room's); a channel is the event that some other session delivers a message. Reads may fail at any time; timers never fire early but may be late.
- Throttling proxy: connection set-up, end of stream and errors, which end the proxy; one direction is modelled, the other is the same program.
- ICMP: the stream operators of the header, which copy its eight bytes.
- The other Asio examples: library wrappers or easier relatives of these.
