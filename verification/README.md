# keybench in Dafny

keybench measures key-value engines. This project models the parts of it whose answers a
benchmark rests on, and proves what they promise: the reference skiplist engine and its reader-writer
lock, the latency histogram, the accounting of every call, the run driver with its sampler and its
measurement grid, the config file and the replay file, the store layer, the sharded load of a
workload, and CPU placement. Each module says in its first comment which source file it follows.

The modules build on each other in this order.

- `Wrappers`, `Numbers`, `Numerals`, `Sequences`: options, powers and sums, decimal text, permutations.
- `KeyOrder`, `SortedRows`, `Levels`, `Rng`: byte order, sorted rows as a map, the arithmetic of
  "next node tall enough", and the level generator.
- `SkipListEngine`: the engine on the heap, nodes with arrays of links, updated in place. `EngineRuns`
  and `MapSpec` tie whole runs of it to a finite map and compare its range scan with a cursor loop.
- `LockedSkipList`, `LockedInsert`, `LockedDelete`, `LockedWriter`, `LockedRuns`, `LockedSchedules`: the same
  engine as a machine run by any number of threads under the lock, on every schedule. A step is one turn of one of
  the engine's loops: the turn that links a node on a level writes both links of that level, and the
  step that ends a put's search draws the level, raises the list's and allocates the node. Reading a
  freed node or a link that is not there is a fault state of the machine, so that it never happens is a
  theorem.
- `Buckets`, `Histogram`, `OpStats`, `TimedRun`, `Sampler`, `Grid`: from one latency bucket up to the whole
  measurement grid. Recorders sit in contexts, contexts in workers, and a run merges them.
- `ConfigText`, `ConfigLoad`, `ConfigPrint`, `Replay`: what a config line means, loading it through
  one line buffer cut in place, printing it, and the exact condition under which nothing is lost.
- `StoreLayer`, `Keyspace`, `Seeding`, `Loading`, `Affinity`: retries and batches, key formats, the parallel
  load down to the memory of the locked skiplist, CPU lists and placement.

Where code and comments disagree the model follows the code. These results say so outright, each with
the exact condition under which the promise does hold:

- values below 64 that are no power of two read back wrongly from the histogram (`Buckets.AccurateIff`);
- an accepted config value that starts with `#` or `;` is lost by the replay file
  (`ConfigPrint.RoundTripIff`, and `ConfigPrint.CommentValueLost` for every such value);
- so is a setting of the run itself whose text holds a comment start, a blank end or a line end, such as
  the data directory `/mnt/a #1` (`Replay.ReplayRestores`, `Replay.DataDirLost`);
- a section name cut after it was trimmed can read back as `bench` and change the run's settings
  (`ConfigPrint.BenchKeptIff`, `Replay.PaddedBenchChanges`);
- the zero-padded key formats stop ordering keys at 10^12 items, 10^10 in a cart
  (`Keyspace.MixedOrderIff`, `Keyspace.CartOrderIff`).

Machine integers: the histogram's `(v - base) * 64` and the casts applied to config integers wrap
explicitly; the percentile `p`, durations and rates are reals; everything else is
unbounded.

## Model

| member | source | states |
|---|---|---|
| `KeyOrder.KeyCmpIsLexicographic` | src/bench.h:8-14 | The sign of the comparison is exactly the lexicographic order of unsigned bytes, a proper prefix first; zero exactly for equal strings |
| `KeyOrder.KeyCmpTotalOrder` | src/bench.h:8-14 | It is a strict total order: antisymmetric, transitive, and total |
| `SortedRows.UpsertIsUpdate` | backends/skiplist/skiplist.c:75-111 | Writing a row keeps the rows sorted and is update on the map they stand for |
| `SortedRows.RemoveIsErase` | backends/skiplist/skiplist.c:134-162 | Removing a row keeps the rows sorted, is erase on the map, and shortens them exactly when the key was there |
| `SortedRows.LookupIsMapLookup` | backends/skiplist/skiplist.c:113-132 | Finding a row is lookup on the map |
| `Levels.PredUnique` | backends/skiplist/skiplist.c:81-85 | On each level the predecessor of a position is unique, and every earlier member links to before it |
| `Levels.SuccInsert` | backends/skiplist/skiplist.c:97-107 | Inserting a node of height l changes the successor of exactly the predecessors on its levels |
| `Levels.SuccDelete` | backends/skiplist/skiplist.c:151-152 | Deleting a node reroutes exactly those that saw it to what it saw |
| `Levels.WalkIsMembers` | backends/skiplist/skiplist.c:75-162 | For positions and heights alone: stepping to the next position taller than i visits exactly the positions taller than i, in order |
| `Levels.LevelsNest` | backends/skiplist/skiplist.c:75-162 | For heights alone: level i holds exactly the positions with height above i, so each level is a sub-list of the one below |
| `Rng.NextInjective` | backends/skiplist/skiplist.c:61-65 | The xorshift step is injective on 64-bit words |
| `Rng.NextZero` | backends/skiplist/skiplist.c:61-65 | Only zero steps to zero |
| `Rng.InitialNonZero` | backends/skiplist/skiplist.c:225-225 | The initial state is non-zero for every 32-bit seed |
| `Rng.NeverZero` | backends/skiplist/skiplist.c:59-73 | After any number of draws from any seed the state is non-zero |
| `Rng.DrawHeight` | backends/skiplist/skiplist.c:66-72 | The drawing loop gives 1 plus the number of times 4 divides the word, at most 24 |
| `Rng.HeightIs` | backends/skiplist/skiplist.c:66-72 | For a state that is not zero, 4^(l - 1) divides it and, below the cap of 24, 4^l does not |
| `Rng.NextIs` | backends/skiplist/skiplist.c:61-65 | On 64-bit values the step is exclusive or with the value times 2^13 modulo 2^64, divided by 2^7, and times 2^17 modulo 2^64, in that order |
| `Rng.InitialIs` | backends/skiplist/skiplist.c:225-225 | The initial state is the exclusive or of the constant and the mixed seed, bit by bit |
| `SkipListEngine.SkipList.constructor` | backends/skiplist/skiplist.c:216-248 | An empty list in the invariant, at level 1, with the seeded generator |
| `SkipListEngine.SkipList.Locate` | backends/skiplist/skiplist.c:80-85 | The top-down search finds the true predecessor on every level |
| `SkipListEngine.SkipList.Search` | backends/skiplist/skiplist.c:80-87 | The node after the bottom predecessor is the first with key at least k, and carries k exactly when k is present |
| `SkipListEngine.SkipList.Get` | backends/skiplist/skiplist.c:113-132 | Returns 1 and the stored value exactly when the key is present, 0 otherwise |
| `SkipListEngine.SkipList.RandLevel` | backends/skiplist/skiplist.c:59-73 | Steps the generator once and returns a height within 1..24 taken from the new state |
| `SkipListEngine.SkipList.Raise` | backends/skiplist/skiplist.c:97-101 | Raising the list's level makes the head the predecessor on each new level |
| `SkipListEngine.SkipList.Splice` | backends/skiplist/skiplist.c:103-107 | Linking a node in changes exactly one link per level of it, and the node takes over the old link |
| `SkipListEngine.SkipList.Put` | backends/skiplist/skiplist.c:75-111 | Keeps the whole multi-level invariant; the rows are the upsert; an existing key leaves nodes, links, heights, level and generator unchanged; a new one adds one fresh node of the drawn height at its place |
| `SkipListEngine.SkipList.Unlink` | backends/skiplist/skiplist.c:151-152 | Only links that pointed at the node change, to what it pointed at, and no link above a node's height is read |
| `SkipListEngine.SkipList.Shrink` | backends/skiplist/skiplist.c:153-155 | Lowers the level until it is 1 or its head link is used, and no further |
| `SkipListEngine.SkipList.Del` | backends/skiplist/skiplist.c:134-162 | Keeps the invariant; returns 1 exactly when the key was present; frees exactly that node; a missing key changes nothing |
| `SkipListEngine.SkipList.Range` | backends/skiplist/skiplist.c:177-197 | Delivers in order exactly the first limit rows with lo <= key < hi, cut after the first row the callback stops at; the count is one lower exactly on an early stop |
| `SkipListEngine.SkipList.Close` | backends/skiplist/skiplist.c:199-214 | Closing frees the nodes in list order, then the head: no node that was freed before, none twice, none read after it was freed, and in the end exactly the nodes ever created |
| `SkipListEngine.SkipList.LevelExact` | backends/skiplist/skiplist.c:75-162 | The level is 1 or its top head link is set, and head links at or above it are null |
| `SkipListEngine.SkipList.LevelList` | backends/skiplist/skiplist.c:75-162 | On each level, following `next[i]` from the head through the heap visits exactly the nodes taller than i, in the order of the bottom level, and ends |
| `MapSpec.RowsRefineMap` | backends/skiplist/skiplist.c:75-197 | Each operation on sorted rows is the operation on the map, with the map's answer; a range answer enumerates the map's window in key order, cut by the limit or after the first row its callback stops at and for no other reason, with the count the engine returns |
| `MapSpec.EnumerationUnique` | backends/skiplist/skiplist.c:177-197 | The map, the window, the limit and the callback leave one possible range answer |
| `MapSpec.RunsRefineMap` | backends/skiplist/skiplist.c:75-197 | So is every sequence of operations |
| `MapSpec.AnswersAreMapAnswers` | backends/skiplist/skiplist.c:75-197 | The i-th answer of any run is the map's answer after the first i operations |
| `EngineRuns.Apply` | src/bench.h:36-56 | Any operation on the heap structure acts as its row form and gives its answer |
| `EngineRuns.RunFromEmpty` | backends/skiplist/skiplist.c:75-248 | From an empty engine with any seed, every run, scans stopped by their callbacks included, ends in the invariant with the map's contents, an exact count, a generator state that is not zero, and the map's answer at every step |
| `EngineRuns.CursorRange` | backends/rocksdb/rocksdb.c:130-150 | The cursor loop delivers the same window and counts every row it delivers |
| `EngineRuns.SameRange` | backends/rocksdb/rocksdb.c:136-147 | Both loops deliver the same rows; counts agree unless a callback stops, when the skiplist's is one lower |
| `SortedRows.DeliveredMeaning` | backends/skiplist/skiplist.c:188-194 | The delivered rows are a prefix that stops at the first stopping row or runs to the end |
| `LockedSkipList.ProbeMoves` | backends/skiplist/skiplist.c:117-120 | One turn of the search keeps the thread standing on a true predecessor candidate, or goes one level down |
| `LockedSkipList.ReaderKeepsOk` | backends/skiplist/skiplist.c:113-197 | Every single step of a reader keeps its partial result right, the rows a scan has delivered and its stop at the callback's word included |
| `LockedInsert.LinkOne` | backends/skiplist/skiplist.c:103-107 | One link step of an insert moves the half-linked state up one level |
| `LockedInsert.LinkDone` | backends/skiplist/skiplist.c:103-110 | When the last link is set the memory represents the longer list |
| `LockedDelete.UnlinkOne` | backends/skiplist/skiplist.c:151-152 | One unlink step moves the half-bypassed state up one level and faults on nothing |
| `LockedDelete.Freed` | backends/skiplist/skiplist.c:153-159 | At the right level the node can be freed, and the memory represents the shorter list |
| `LockedWriter.WriterKeepsOk` | backends/skiplist/skiplist.c:75-162 | Every single step of a writer keeps its partial work right |
| `LockedRuns.RunKeepsInv` | backends/skiplist/skiplist.c:75-197 | The invariant over memory, lock and every thread's position holds on every schedule of any set of threads |
| `LockedRuns.Linearizable` | backends/skiplist/skiplist.c:75-197 | On every schedule the answers, range counts and early stops included, are those of the completed operations run one after another in lock order, and between writes the memory holds their result |
| `LockedSchedules.OpsAreBegun` | backends/skiplist/skiplist.c:75-197 | Those operations are the ones asked for: on every schedule a thread's completed operations in order, then the one it is inside, are exactly those the schedule had it begin while it was between operations and the lock was free for them, arguments included |
| `LockedSchedules.InsideFinishes` | backends/skiplist/skiplist.c:75-197 | In every state a schedule reaches, a thread inside an operation completes and logs it by finitely many steps of its own, whatever height is drawn |
| `LockedSchedules.BegunFinishes` | backends/skiplist/skiplist.c:75-197 | And a thread between operations, the lock free for one, begins that one and completes it so: a free lock is granted |
| `LockedRuns.NeverFaults` | backends/skiplist/skiplist.c:75-197 | No thread ever reads a freed node or a link at or above a node's height |
| `LockedRuns.ReadersFreezeMemory` | backends/skiplist/skiplist.c:113-197 | While any reader is inside, no step of any thread changes a link |
| `LockedRuns.HoldsNoFreedNode` | backends/skiplist/skiplist.c:75-197 | Every node a thread points at in the middle of an operation is still allocated, each entry of `update[]` it has filled in included |
| `Buckets.AccurateIff` | src/hist.c:11-32 | A value reads back within 1/128 exactly when it is a power of two below 64 or lies from 64 up to 128/127 of the largest readable value |
| `Buckets.SmallValueMisread` | src/hist.c:19-31 | The value 3 lands in bucket 96, which reads back as 34 |
| `Buckets.IndexMonotone` | src/hist.c:11-22 | Below 2^58 + 2^39 larger values never land in a lower bucket |
| `Buckets.IndexMonotoneIff` | src/hist.c:19-21 | And that bound is exact: from it on the wrapped product breaks the order |
| `Histogram.MergeIsAppend` | src/hist.c:43-50 | The histogram of two sample lists together is the merge of their histograms |
| `Histogram.MergeLaws` | src/hist.c:43-50 | Merging is commutative and associative |
| `Histogram.ResetIsIdentity` | src/hist.c:5-9 | The reset histogram is neutral on both sides |
| `Histogram.SplitIrrelevant` | src/hist.c:34-50 | However samples are split over recorders and ordered, the merged histogram is that of one recorder |
| `Histogram.Recorder.Record` | src/hist.c:34-41 | Recording in place is merging with a one-sample histogram |
| `Histogram.Recorder.Merge` | src/hist.c:43-50 | Merging in place is the sum of the two histograms, also of a recorder with itself |
| `Histogram.Recorder.Percentile` | src/hist.c:52-74 | The bucket walk computes PercentileOf, reading only; whatever the samples recorded, the answer is 0 for none, the least of them for p up to 0 and the greatest from 100 on |
| `Histogram.WalkStopsAtRank` | src/hist.c:60-72 | The walk stops at the bucket of the sample of that rank |
| `Histogram.TargetIsNearest` | src/hist.c:58-59 | The rank looked for is the whole number nearest to p percent of the samples, halves rounded up, and at least 1; there is one such rank, and it is that of a sample |
| `Histogram.PercentileIsOrderStatistic` | src/hist.c:52-74 | For samples below 2^58 + 2^39, 0 < p < 100 and k the whole number nearest to p percent of their count and at least 1, the walk stops at a non-empty bucket, that of the k-th sample in sorted order, so the fall-through is unreachable |
| `Histogram.ClampHelps` | src/hist.c:66-70 | Clamping to the recorded minimum and maximum never moves the answer away from the sample |
| `Histogram.PercentileWithin` | src/hist.c:52-74 | For samples from 64 up to past 2^40 the answer is within 1/128 of the k-th sample in sorted order, k as above |
| `OpStats.MergeStatsIsAppend` | src/kvlua.c:32-39 | Merging stats is recording both call lists in one context |
| `OpStats.MergeStatsLaws` | src/kvlua.c:32-39 | Merging stats is commutative and associative |
| `OpStats.StatsOrderIrrelevant` | src/kvlua.c:75-337 | The stats depend only on the multiset of calls |
| `OpStats.Accounting` | src/kvlua.c:32-337 | Over any tree of calls and merges each recorder holds the latencies of its own verb's calls (scans with ranges), hits are the lookup codes above zero, misses those at zero, errors those below, and prim_ops is one for a single verb and one for each key of a batch; so both sums balance |
| `OpStats.Context.Put` | src/kvlua.c:75-86 | One put files one latency sample and counts one primitive |
| `OpStats.Context.Get` | src/kvlua.c:88-114 | One get files one sample, one primitive, and one of hit, miss or error by its code |
| `OpStats.Context.Del` | src/kvlua.c:116-127 | One delete files one sample and one primitive |
| `OpStats.Context.RangeOrScan` | src/kvlua.c:165-237 | A range or a scan files one range sample and one primitive |
| `OpStats.Context.Mget` | src/kvlua.c:239-283 | A batch read files one sample, a primitive per key, and each key's outcome |
| `OpStats.Context.Mput` | src/kvlua.c:285-313 | A batch write files one sample and a primitive per pair |
| `OpStats.Context.Mdel` | src/kvlua.c:315-337 | A batch delete files one sample and a primitive per key |
| `OpStats.Context.IssueAll` | src/kvlua.c:75-337 | Calls issued one after another on a context, whose samples are recorded in place, leave the stats of the calls before and these |
| `OpStats.Context.MergeFrom` | src/kvlua.c:32-39 | Merging the seven recorders and the counters in place is the merge of the two stats, also of a context with itself |
| `TimedRun.BudgetSplit` | src/main.c:750-757 | The shares sum to the budget and differ by at most one, the larger first; a negative budget runs nothing |
| `TimedRun.CleanIff` | src/main.c:264-287 | A worker reaches its limit exactly when no iteration it gets to fails |
| `TimedRun.WorkerLoop` | src/main.c:264-287 | On a budget or on the clock, a worker ends at its limit or at the first iteration that fails, and its context holds every verb it called, those of the failing iteration included |
| `TimedRun.CallsOfBegun` | src/main.c:264-287 | A worker's calls are those of the iterations it begins, one after another, the first failing one's included, and no others |
| `TimedRun.MergeAllIsOne` | src/main.c:819-826 | Merging what each worker recorded, one after another, is recording all their calls in one place |
| `TimedRun.MeasureTimed` | src/main.c:732-829 | The context merged from the workers' own describes, in the sense of `OpStats.Accounting`, every verb their iterations called; the run is good exactly when no iteration within any worker's limit fails, and then on a budget its units are the whole of it; the units are the iterations completed in any case |
| `TimedRun.StatsOfAnyInterleaving` | src/main.c:819-826 | The merged stats are also what one recorder would have seen in whatever order the calls interleaved |
| `Sampler.SamplesAreSound` | src/main.c:333-364 | For every interleaving of increments with one-at-a-time reads, each sampled total lies between the true totals at the start and end of its scan, totals never decrease, and the deltas sum to the last total |
| `Sampler.CountersAreWork` | src/main.c:281-285 | Each counter is the sum of its worker's increments, and all of them together the sum of all increments |
| `Sampler.SampleBracketsWork` | src/main.c:351-364 | The i-th sample is the i-th scan's, and its total lies between all the workers had done when that scan began and all they had done at its last read |
| `Sampler.ScanAddsOne` | src/main.c:351-364 | A scan of n counters takes its beginning and n + 1 reads, with any increments in between, and adds exactly one sample |
| `Grid.OneStoreAtATime` | src/main.c:1034-1136 | In a well-formed trace at most one store is open at any point, and stores are seeded, measured and closed only while open |
| `Grid.TimedOnRightStore` | src/main.c:1034-1136 | Every timed run uses a store opened for its own engine and for its own swept value or for all of them; between the opening and the run that store was seeded exactly once when the workload has a load, and never otherwise |
| `Grid.ClosedExactlyOnce` | src/main.c:602-714 | In a trace that ends with nothing open every opened store was closed, and closed once |
| `Grid.RowsMeaning` | src/main.c:1025-1028 | Rows in walking order are distinct cells and fit the array; with no failure they are the whole product |
| `Grid.Driver.MeasureSetup` | src/main.c:602-714 | Exactly what each outcome leaves in the trace: a store opened, and seeded when there is a load; on each failure path closed again; success exactly when the setup succeeds |
| `Grid.Driver.RunMeasurement` | src/main.c:832-850 | A measurement leaves nothing open, whatever fails |
| `Grid.Driver.RunOnStore` | src/main.c:1055-1069 | The repeats of a cell on an open store give it a row exactly when all of them are good |
| `Grid.Driver.RunPerEngine` | src/main.c:1036-1072 | One store for an engine, its whole part of the grid walked, closed on every path |
| `Grid.Driver.RunPerValue` | src/main.c:1073-1111 | One store for each swept value, each closed; a failed setup skips only that value |
| `Grid.Driver.RunFreshEngine` | src/main.c:1112-1136 | One store for each run |
| `Grid.Driver.RunFile` | src/main.c:1012-1136 | In all three modes and on every failure path: nothing is left open, each cell has at most one row and has one exactly when all its repeats were good, the rows fit and follow the walking order; stores are opened for all values exactly when seeded once per engine and else for one swept value, and without seed once no two timed runs share a store; with no failure the rows are the whole product and the stores opened number neng, neng * nsteps or neng * ntp * nsteps * repeat, otherwise at most that |
| `ConfigText.CutLeavesNone` | src/config.c:109-118 | After the cut no comment mark stands at the start or after white space |
| `ConfigText.TrimIs` | src/config.c:39-46 | Trimming is the only split of a text into white space, text with none at its ends, white space |
| `ConfigText.LineNormal` | src/config.c:107-134 | Any line as read yields nothing, a section name, or an entry in normal form |
| `ConfigText.ParseIsNormal` | src/config.c:92-139 | Whatever the file holds, entries are trimmed, keys hold no = and do not start with [, # or ;, nothing holds white space then a comment mark, and names are cut to 63 |
| `ConfigLoad.Fgets` | src/config.c:106-107 | The buffer gets the text up to the newline or 1023 characters, seen up to its first NUL |
| `ConfigLoad.CutInPlace` | src/config.c:109-118 | Writing one NUL leaves the line without its comment |
| `ConfigLoad.TrimInPlace` | src/config.c:39-46 | Returns where the trimmed text starts, having written only inside the string |
| `ConfigLoad.CfgFile.FileSection` | src/config.c:74-90 | Returns to the section of exactly that name, or appends one whose name is cut to 63 |
| `ConfigLoad.CfgFile.SectionAdd` | src/config.c:57-72 | Appends the entry to the current section and leaves the others alone |
| `ConfigLoad.CfgFile.TakeHeader` | src/config.c:121-130 | A bracketed name opens its section; without a closing bracket the line is ignored |
| `ConfigLoad.CfgFile.TakeEntry` | src/config.c:131-134 | The first = splits key from value, both trimmed in place; without one the line is ignored |
| `ConfigLoad.Load` | src/config.c:92-139 | The in-place loader computes the parse of the text |
| `ConfigLoad.KvOptStr` | src/config.c:197-203 | The value of the first entry with the key |
| `ConfigLoad.KvOptAll` | src/config.c:211-218 | The values of the first max entries with the key, in order |
| `ConfigPrint.ReadPair` | src/main.c:1268-1269 | A readable entry, printed and read, is the same entry |
| `ConfigPrint.ValueBackIff` | src/main.c:1245-1269 | A written value of any text comes back from its line exactly when it is trimmed, holds no line end, no comment start and none after the blank before it, and fits the buffer with its key; its key comes back whatever the value |
| `ConfigPrint.ReadBadPair` | src/main.c:1268-1269 | An unreadable one leaves a different entry in its place, for good |
| `ConfigPrint.RoundTripIff` | src/main.c:1263-1270 | Printed after any bench section and read again, the other sections of a parsed file come back in order exactly when every value starts no comment and fits its line, and names are trimmed and distinct; the bench section is then untouched |
| `ConfigPrint.BenchKeptIff` | src/main.c:1263-1270 | Reading any printed sections of normal form leaves the bench section as it was exactly when no section with entries has a name that trims to bench |
| `ConfigPrint.PaddedBenchAccepted` | src/config.c:51-52 | A file can hold such a section: a longer name that starts with bench and 58 blanks is cut to them |
| `ConfigPrint.PaddedBenchReenters` | src/config.c:121-130 | Printed and read, the section with that name adds its entries to the bench section |
| `ConfigPrint.CommentValueLost` | src/main.c:1268-1269 | Any value that starts with a comment mark is accepted from a line with nothing around its =, and lost in the replay file |
| `Replay.DecimalBack` | src/config.c:167-195 | An integer of at most 2^53 in magnitude, printed and parsed as a size, is itself |
| `Numerals.DigitsPlace` | src/main.c:1249-1256 | The printed digit i places from the right is the number's digit for 10^i, with no leading zero |
| `Replay.SizeWithSuffix` | src/config.c:167-195 | An integer, blanks, one of K, M, G, T in either case and anything after it parse as the integer times 1024, 1024^2, 1024^3 or 1024^4 |
| `Replay.SizeWithOther` | src/config.c:189-193 | With anything else after it the default is taken |
| `Replay.CastsAre` | src/main.c:1219-1226 | A cast to int or unsigned keeps the value modulo 2^32 and lies in the type's range |
| `Replay.TruncIs` | src/config.c:194-194 | The cast of a double drops the fraction, toward zero |
| `Replay.LoadSaved` | src/main.c:1230-1273 | When every text survives its line, the saved text loads to a bench section that carries each setting under its own key in its own form, banner or no, then the other sections |
| `Replay.ReplayRestores` | src/main.c:1206-1273 | For any texts and any sections of a parsed file: a text its line does not give back or a duration the number format changes is always lost; with no section re-entering bench, save, load and apply give the normal form of the settings exactly when the texts and the duration are kept, and the settings themselves exactly when they are canonical too; with such texts the other sections come back exactly when they are printable |
| `Replay.MarkCuts` | src/main.c:1230-1262 | A written value with white space before a comment mark comes back as what stands before |
| `Replay.DataDirLost` | src/main.c:1257-1257 | A data directory of that kind, such as /mnt/a #1, comes back cut whatever the other sections hold |
| `Replay.PaddedBenchChanges` | src/main.c:1263-1270 | A parsed file whose cut section name reads back as bench changes the seeding threads of the run it is saved from |
| `Replay.Session.Apply` | src/main.c:1206-1228 | For any bench section: each setting is assigned from the first match of its own key, with C casts, and the options completed |
| `Replay.RunFrom` | src/main.c:1206-1273 | Canonical settings survive save, in-place load and apply exactly when their texts and duration are kept, whatever other sections that do not re-enter bench hold |
| `StoreLayer.StorePut` | src/store.c:65-70 | Ends, never returns the retry code, and the engine carries the put out once, or refuses it once and nothing changed |
| `StoreLayer.StoreDel` | src/store.c:101-106 | The same for delete, with 1 exactly for a key that was present |
| `StoreLayer.LoopedPuts` | src/store.c:82-85 | The fallback is the fold of the single puts carried out, in order, and returns 0 exactly when all were |
| `StoreLayer.LoopedDels` | src/store.c:116-119 | Likewise for deletes; absent keys do not fail the batch |
| `StoreLayer.StorePutBatch` | src/store.c:72-86 | By either route the store is left as by its rows put in order; 0 only if all were carried out |
| `StoreLayer.StoreDelBatch` | src/store.c:108-120 | By either route the store is left as by its keys deleted in order |
| `StoreLayer.LastWriteWins` | src/store.c:83-85 | After a batch a key holds the value of its last row carried out, or what it held before |
| `StoreLayer.ErasedKeys` | src/store.c:117-118 | After a batch delete exactly the keys carried out are gone |
| `Keyspace.MixedKeyOrder` | workloads/mixed.lua:19-43 | Below 10^12 zero-padded keys compare as their indices |
| `Keyspace.MixedKeyInjective` | workloads/mixed.lua:40-43 | Different indices have different keys, at any size |
| `Keyspace.MixedOrderIff` | workloads/mixed.lua:19-22 | The keys of all indices below a bound compare as the indices do exactly when the bound is at most 10^12 |
| `Keyspace.WindowExactIff` | workloads/mixed.lua:90-92 | Over a keyspace of so many items, every scan from key(start) to key(start + window) covers exactly the indices in between exactly when the last such window ends below 10^12; for windows up to 10^11, the workload's is 100 |
| `Keyspace.PrefixRange` | workloads/cart.lua:41-46 | From a prefix ending in a byte to the same prefix ending in the next byte lie exactly the strings with that prefix |
| `Keyspace.CartRangeExact` | workloads/cart.lua:41-86 | A user's range holds exactly the byte strings with the user's prefix, so every line of that user and no line of another |
| `Keyspace.CartOrderIff` | workloads/cart.lua:30-32 | Within a user, the lines of all item ids below a bound order by item exactly when the bound is at most 10^10 |
| `Seeding.LoadShard` | workloads/mixed.lua:57-75 | A thread sends exactly its shard in order, in batches of 512 but for the last, and counts as many keys |
| `Seeding.SeededOpsSum` | src/main.c:686-693 | Over all threads the counts sum to the number of items |
| `Seeding.WrittenOnce` | workloads/mixed.lua:54-75 | In every interleaving each index is written by exactly one put |
| `Seeding.LoadFillsStore` | workloads/mixed.lua:57-75 | For every item count, thread count and interleaving the store ends as key(i) to the payload for i below items |
| `Seeding.DatasetSize` | workloads/mixed.lua:57-75 | That dataset holds one entry per item |
| `Loading.SendShard` | workloads/mixed.lua:57-75 | A thread's batches sent through the store layer leave its shard's rows written in order, each as far as the engine carried it out |
| `Loading.LoadOnSkipList` | src/main.c:642-700 | On every schedule of the locked skiplist on which each thread begins the puts of its shard's batches in order and is done, the memory ends holding rows that are exactly the dataset, as many as items, and the engine's count says so |
| `Affinity.CpuSet.Init` | src/affinity.c:53-91 | The list is the strictly increasing enumeration of the mask; pinning is on only when asked for and possible |
| `Affinity.RenderDecodes` | src/affinity.c:27-50 | The range text decodes to maximal ranges that expand to exactly the list |
| `Affinity.RenderSample` | src/affinity.c:27-50 | The CPUs 0, 1, 2, 3 and 8 read 0-3,8 |
| `Affinity.FormatSet` | src/affinity.c:29-50 | The buffer holds the whole text exactly when it fits, otherwise the ranges that fit and an ellipsis |
| `Affinity.CpuSet.PinSelf` | src/affinity.c:98-114 | A worker gets the CPU at its id modulo the list's length, the modulus never negative, or -1 |
| `Affinity.LoadBalanced` | src/affinity.c:102-104 | Of T workers on n CPUs each CPU gets the floor of T/n, or one more for the first T mod n |

## Left out

- Histogram.Recorder.Record: bucket counts, count and sum are unbounded, so their wrap-around after 2^64 is
  not modelled.
- Histogram.Recorder.Merge: the same.
- OpStats.Context.MergeFrom: the counters are unbounded here too.
- TimedRun.WorkerLoop: the clock is a parameter that says before each iteration whether the time is up;
  progress lines, and workers whose Lua state or `run` function is missing, are not modelled.
- Sampler.SamplesAreSound: a counter read returns the counter's current value; relaxed atomics are not
  modelled as weak memory, and the sampler's clock is left out.
- LockedRuns.Linearizable: fairness and waiting are not modelled, a blocked step leaves the state as it is.
- Replay.ReplayRestores: integers up to 2^53 in magnitude, a duration the C library's number format writes as
  one word, and a banner line that fits the buffer; timeline, probe and auto_plot are not written by the
  source, so they are no part of the settings.
- Replay.Session.Apply: the scanning of a number is exact on plain integers; on fractions, exponents and
  hexadecimal text it is the C library's, a parameter. Casts of doubles past the range of their integer
  type are undefined in C and unbounded here.
- Seeding.LoadFillsStore: the runs in which every put is carried out; the batch verb drops the store's code,
  so a refused put would go unnoticed by the load.
- StoreLayer.StorePutBatch: a refused engine batch changes nothing; engines that refuse after carrying out part
  of a batch are not modelled.
- StoreLayer.StoreDelBatch: the same.
- Allocation failure and the abort paths: allocation always succeeds, and freed nodes are tracked as ghost state.
- Floating-point rounding: `p` is a real in the percentile.
- The RocksDB and TidesDB engines beyond the shape of the range loop, which runs over an abstract cursor.
- The Lua state, `make_ctx`, `open_workload` and the operation mixes of the workloads: only each verb's
  effect on stats and store is kept. The cart workload's load draws random counts and is not modelled.
- `summarize_point` and its medians, reporters, console and TSV output, plotting and install scripts.
- `/proc` and `/sys` probes, directory sizes and RAM filesystem detection.
- The command line: `Replay` starts from the defaults the program starts from.
