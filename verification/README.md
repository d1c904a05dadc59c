# wdb2ts: a verified model of request handling

wdb2ts answers a request for forecast data by running several database queries in parallel,
merging what they return into one map `[toTime][fromTime][provider] -> values`, and deriving
precipitation and weather symbols from it. This project models that logic in Dafny and proves
what the code promises about it. `dafny verify dfyconfig.toml` checks everything.

## What is modelled

**The parallel request** (`RequestProtocol`, `RequestAnswer`, `RequestManager`).
`RequestProtocol` is a transition system: the main thread starts workers in list order, pops
ids from the ready queue, joins, and inspects the data of a `stopIfData` query; workers finish
and push their id; connections are granted or refused at will. Its theorems hold in every
reachable state of every interleaving. `RequestManager` is the class with the loops of
`startThreads`, `waitForCompleted` and `runRequests`; every method proves that what it does is
a run of that system, so its theorems carry over, and `RunRequests` is proved to end; what the
environment answers is recorded, and says exactly when a request fails.
`toManyThreads` is arbitrary at the start, because the source never sets it before the first
test. The central result is that the answer does not depend on the schedule.

**The monitor queue** (`ReadyQueue`). Each critical section of `queuemt` is one step; a
notification wakes any one waiting thread, waits may end spuriously or by time. First in first
out, capacity, and wake-ups are proved for every interleaving of all operations. Wake-ups are
never lost exactly when the queue is unbounded: producers and consumers share one condition
variable, and for every limited size there is a run in which a producer waits forever in front
of an empty queue. `suspend( true )` calls `clear()`, which `std::queue` does not have, so that
form cannot be instantiated; the model gives it the meaning that it states.

`RequestQueue` connects the two: every run of the request is one of the main thread and its
workers with an unbounded queue that holds, step by step, what the protocol calls ready; and when
the main thread waits, the next push wakes it.

**Merging** (`NestedMaps`, `PointData`, `Answers`). `PData` is a map from field name to value; a
field that is not in the map is FLT_MAX. `RequestRows` goes from the rows of the database through
decoding, the check of the prognosis length, pruning, the threads and merging to the values of the
answer.

**Lookup and precipitation** (`ValueLookup`, `Precipitation`, `PrecipitationSeries`,
`HourlyValues`, `AccumulatedPrecipitation`, `LocationElem`). Floats are reals. The provider and the from time
that the searches leave behind are part of every result, as they steer the searches that follow.

**Symbols** (`Symbols`). A weather symbol is its time, kind and thunder flag.

**Reference times and schedule** (`Providers`, `NameOrder`, `ProviderReftimes`,
`UpdateProviderReftimes`, `Text`, `SplitStr`, `Calendar`, `IsoTime`, `NoteProviderReftime`,
`NextRun`). The answers of the database, the clock and the parser of the older RFC 1123 format
are parameters. Time stamps are whole seconds, or one of the three special values; text times
follow section 4.3.2 of ISO 8601:2004.

## Where the code does not do what one would expect

Each of these is proved with its exact condition; where that is not a statement about single
inputs already, there is a lemma with an input that shows the difference.

- `findSymbolsIncludedRange` drops the last symbol of a run that reaches the end of the list, so
  the thunder check misses exactly for lists whose last two symbols overlap
  (`Symbols.ThunderMissedWithOverlap`, `Symbols.ConsistentExactly`).
- A limited queue can lose a wake-up (`ReadyQueue.StallsOnlyWhenLimited`).
- `findNextrun` expects durations below 24 hours, but `HH:MM` is not limited to them
  (`NextRun.MissedRun`, `NextRun.EarliestExactly`).
- `PRECIP_N` over adjacent periods does not always add up. When nothing is accumulated from a
  later time on it does, whatever has been measured, exactly when the end and the middle are read
  from one run, or end, middle and start are all read from values stored with their own time
  (`AccumulatedPrecipitation.TwoRunsDoNotAddUp`, `AccumulatedPrecipitation.FromEarlierMeans`);
  `AccumulatedPrecipitation.CallsAddUpExactly` has the condition for every layout.
- A batch update for one place stamps, and may enable, entries of other places of the provider
  that the database also returns (`UpdateProviderReftimes.OtherPlaceIsStamped`). Exactly when it
  can stamp an entry anew is `UpdateProviderReftimes.NeverStampedExactly`, and exactly when it can
  leave it enabled or disabled otherwise is `UpdateProviderReftimes.NeverSwitchedExactly`.
- The check of the prognosis length does not end on a location whose last to-time is that of the
  constant fields (`RequestRows.ValidatePrognosisLength`), nor does the loop for `offset/every`
  when `every` is 0 and the offset lies within the day (`NextRun.MetaModelConf.AddEvery`).
- Removing empty data can make a query fail that must have data, or keep one from ending the
  request; it is harmless exactly for the queries to which neither happens
  (`RequestAnswer.PruningExactly`).
- The deadline for a connection is set when the first one is refused and never again, so a single
  refusal more than ten seconds later ends the request, whatever was granted in between
  (`RequestManager.WdbDataRequestManager.RunRequests`).
- One entry whose time is not-a-date-time makes the whole saved note unreadable
  (`NoteProviderReftime.SaveLoad`).
- A negative UTC offset of less than an hour is read as a positive one, because only the hours
  get the sign (`IsoTime.OffsetExactly`).

Comments that the code contradicts: the wait for a connection is ten seconds, not five
(`src/mod_wdb2ts/WdbDataRequest.cpp:336`); `getInt` throws where its comment says that it
returns 0 or -1 (`src/miutil/ptimeutil.cpp:420-426`). The model follows the code.

Library behaviour that the model relies on: `std::map` lists its keys in order,
`boost::posix_time::time_duration` is negative as a whole when one of its parts is, and
`boost::gregorian::date` exists for the years 1400 to 9999.

## Model

| member | source | states |
|---|---|---|
| RequestProtocol.InvAlways | src/mod_wdb2ts/WdbDataRequest.cpp:207-298 | in every state of every run each running thread is in exactly one place: its worker is busy, done but not reported, its id is queued, or the main thread holds it; completed means started and joined; results of joined threads are written; barriers and the bound hold |
| RequestProtocol.WaitingIsSafe | src/mod_wdb2ts/WdbDataRequest.cpp:260-298 | the main thread never meets an id it is not waiting for, and a blocking pop always has an id to take or a worker that still has to push one; the four places add up to the running threads |
| RequestProtocol.BarrierBeforeStart | src/mod_wdb2ts/WdbDataRequest.cpp:213-255 | when a query is started, every query up to the last earlier `stopIfData` query has been joined, and a positive bound on parallel threads is respected |
| RequestProtocol.ReadAfterJoin | src/mod_wdb2ts/WdbDataRequest.cpp:358-370 | a command's data is read only after its worker has been joined, when no worker is active; the request stops exactly if that data varies in time |
| RequestProtocol.RunsAreShort | src/mod_wdb2ts/WdbDataRequest.cpp:322-373 | apart from refused connections a run of n queries has at most 6n + 1 steps |
| RequestProtocol.NeverStuck | src/mod_wdb2ts/WdbDataRequest.cpp:207-373 | a run that has not returned can always go on without a refused connection |
| RequestProtocol.RunCountIs | src/mod_wdb2ts/WdbDataRequest.cpp:358-370 | the number of queries run is the position of the first `stopIfData` query with forecast data, or the whole list |
| RequestProtocol.CompletedIsPrefix | src/mod_wdb2ts/WdbDataRequest.cpp:300-373 | every run that returns has joined all threads and completed, with results, exactly that prefix of the list |
| RequestProtocol.SameQueriesCompleted | src/mod_wdb2ts/WdbDataRequest.cpp:300-373 | two returning runs of the same queries complete the same ones, for any interleaving, any two bounds and any refused connections |
| RequestAnswer.ScheduleIndependence | src/mod_wdb2ts/WdbDataRequest.cpp:300-474 | the merged answer of every returning run is the same function of the queries alone |
| RequestAnswer.AnswerValues | src/mod_wdb2ts/WdbDataRequest.cpp:407-474 | each value of that answer: missing if a query that was run fails, else the last non-missing value over the run queries in list order |
| RequestManager.WdbDataRequestManager.FinishQuery | src/mod_wdb2ts/WdbDataRequest.cpp:41-50 | a worker writes the result of its query into its own slot and into no other, and is then finished; nothing else changes |
| RequestManager.WdbDataRequestManager.PushId | src/mod_wdb2ts/WdbDataRequest.cpp:52 | a finished worker appends its id to the ready queue, once |
| RequestManager.WdbDataRequestManager.WaitAndPop | src/mod_wdb2ts/WdbDataRequest.cpp:277 | the blocking pop ends, with an id of a running thread |
| RequestManager.WdbDataRequestManager.WaitForCompleted | src/mod_wdb2ts/WdbDataRequest.cpp:260-298 | joins all threads when asked for 0, else at least that many or all, and returns how many |
| RequestManager.WdbDataRequestManager.StartThreads | src/mod_wdb2ts/WdbDataRequest.cpp:207-258 | starts threads in list order until all are started, the bound is reached, a connection is refused or a barrier comes, and leaves the flags that tell which; it fails exactly if the pool failed or a thread was not created |
| RequestManager.WdbDataRequestManager.InspectLastStarted | src/mod_wdb2ts/WdbDataRequest.cpp:360-368 | joins everything, then opens the barrier; it is to stop exactly if the data of the query that was started last varies in time |
| RequestManager.WdbDataRequestManager.WaitForConnection | src/mod_wdb2ts/WdbDataRequest.cpp:330-356 | the first time, the deadline is set to ten seconds from now; it gives up exactly when the deadline has passed, and otherwise joins a thread or brings the clock nearer to it |
| RequestManager.WdbDataRequestManager.Pass | src/mod_wdb2ts/WdbDataRequest.cpp:322-371 | one pass of the main loop uses up work or time; a failed start leaves no thread running |
| RequestManager.WdbDataRequestManager.RunRequests | src/mod_wdb2ts/WdbDataRequest.cpp:300-403 | always ends; `LogicError` exactly if the pool failed or a thread could not be created; `ResourceLimit` exactly if there is no queue, or a connection is still refused more than ten seconds after the first wait; otherwise it returns, having completed exactly the promised prefix |
| RequestManager.RequestData | src/mod_wdb2ts/WdbDataRequest.cpp:477-529 | whatever the environment does, returned data is the schedule-free answer of the queries; and data is returned exactly if there is a queue, nothing failed and no wait for a connection exceeded ten seconds |
| ReadyQueue.AlwaysInOrder | src/miutil/queuemt.h:95-254 | in every interleaving of all operations: what left the queue, followed by its content, is what was pushed, in order; a limited queue never exceeds its limit |
| ReadyQueue.PopsDeliver | src/miutil/queuemt.h:143-220 | a pop that gets the mutex delivers the oldest value if there is one; else it waits, returns without one, or throws because the queue is suspended |
| ReadyQueue.PushesAppend | src/miutil/queuemt.h:95-141 | a push that gets the mutex appends its value if there is room, unless the queue was suspended when it was called |
| ReadyQueue.NoLostWakeUp | src/miutil/queuemt.h:95-254 | in an unbounded queue, while a consumer waits, the woken consumers number at least the queue length |
| RequestQueue.EveryRunHasAQueue | src/mod_wdb2ts/WdbDataRequest.cpp:207-298 | for every run of the request there is a run of the main thread and its workers with an unbounded monitor queue in which, after each step, the same ids have gone in and come out and the queue holds what the protocol calls ready |
| RequestQueue.SameContent | src/miutil/queuemt.h:95-254 | any monitor queue that has seen the pushes and pops of a run holds what the protocol calls ready |
| RequestQueue.NextPushIsTaken | src/miutil/queuemt.h:95-254 | when the only consumer of an unbounded queue waits, the queue is empty, and the next push wakes that consumer, which goes on and gets the value |
| ReadyQueue.StallsOnlyWhenLimited | src/miutil/queuemt.h:95-254 | some run ends with a thread waiting that could proceed and nobody on the way to wake it, if and only if the queue is limited |
| PointData.CellLaws | src/mod_wdb2ts/PointDataHelper.cpp:91-254 | merging records is associative and the all-missing record is its identity |
| PointData.SerieAssociative | src/mod_wdb2ts/WdbDataRequest.cpp:445-461 | merging whole time series is associative, although empty inner maps leave no trace |
| PointData.MergedLookup | src/mod_wdb2ts/WdbDataRequest.cpp:445-461 | after a merge each value is the later one, unless that is missing |
| PointData.MergeProviderLoop | src/mod_wdb2ts/WdbDataRequest.cpp:449-459 | the innermost merge loop merges every provider of the source and touches no other |
| PointData.MergeFromLoop | src/mod_wdb2ts/WdbDataRequest.cpp:447-460 | the same for from times |
| PointData.MergeTimeLoop | src/mod_wdb2ts/WdbDataRequest.cpp:445-461 | the same for to-times |
| PointData.RemoveEmptyData | src/mod_wdb2ts/PointDataHelper.cpp:1599-1622 | the nested erase loops leave exactly the entries that lead to a value; each erase is src/miutil/stlContainerUtil.h:87-102 |
| PointData.PruneKeepsValues | src/mod_wdb2ts/PointDataHelper.cpp:1599-1622 | no lookup of a value changes, and no empty map or record is left |
| Answers.Decode | src/mod_wdb2ts/PointDataHelper.cpp:705-745 | at most one location results, that of the first row; each field holds the last non-null value of its rows, constant fields under the constant time stamp |
| Answers.RowIsFound | src/mod_wdb2ts/PointDataHelper.cpp:705-745 | a row that is valid for all times is found under the start of 1970, any other under its own times, and nowhere else |
| Answers.MergeIsLastValue | src/mod_wdb2ts/WdbDataRequest.cpp:416-463 | merging is a fold: each field is its last non-missing value in list order |
| Answers.LocationKept | src/mod_wdb2ts/WdbDataRequest.cpp:440-457 | once there is a location, later queries never change it |
| Answers.FoldLocation | src/mod_wdb2ts/WdbDataRequest.cpp:416-463 | the merged data lies where the first query lies that brings a location: the first query by having data at all, a later one by having a record |
| Answers.PrunedOperands | src/mod_wdb2ts/PointDataHelper.cpp:1599-1622 | removing empty data from any operands changes no value of what they merge to, as long as no query fails |
| RequestAnswer.PrunedAnswer | src/mod_wdb2ts/PointDataHelper.cpp:1599-1622 | removing empty data from any harmless queries of a request changes no value of its answer, with the queries that stop the request and those that fail counted in |
| RequestAnswer.PruningExactly | src/mod_wdb2ts/WdbDataRequestCommand.cpp:186-191 | removing the empty data of a query changes no answer of any request with that query if and only if it takes neither the last entry from a query that must have data nor the last varying entry from one that ends the request |
| RequestRows.ValidatePrognosisLength | src/mod_wdb2ts/WdbDataRequestCommand.cpp:129-183 | keeps exactly the locations whose last to-time reaches the required end; ends if and only if no last to-time is that of the constant fields |
| RequestRows.RunCommand | src/mod_wdb2ts/WdbDataRequestCommand.cpp:91-117 | a command that succeeds leaves the last value of each field at the place of its first row, or nothing when its rows do not reach far enough; no data exactly if no row that counts has a value, and data that varies in time exactly if such a row has one; one that throws is marked as failed; one whose check does not end is told apart |
| RequestRows.AnswerOfRows | src/mod_wdb2ts/WdbDataRequest.cpp:407-474 | the answer has the values that one query with all rows that count of the commands that count would give, and none if one of these throws or lacks data it must have |
| RequestRows.PlaceOfRows | src/mod_wdb2ts/WdbDataRequest.cpp:407-474 | the answer lies at the first row of the first command that counts and has a value |
| RequestRows.RequestRows | src/mod_wdb2ts/WdbDataRequest.cpp:477-529 | a whole request with its threads: rows in, values and place of the answer out; it returns exactly if nothing failed and no wait for a connection was too long |
| Answers.MergeData | src/mod_wdb2ts/WdbDataRequest.cpp:407-474 | the loop gives the merged answer of the completed queries, empty when one of them fails or lacks data it must have |
| Answers.CheckConstSerie | src/mod_wdb2ts/PointDataHelper.cpp:1571-1588 | the loops over to-times and from times find exactly whether some entry varies in time |
| Answers.CheckConstFields | src/mod_wdb2ts/PointDataHelper.cpp:1590-1597 | the loop over locations finds exactly whether all data is constant fields |
| ValueLookup.FirstHitIs | src/mod_wdb2ts/LocationElem.h:187-271 | a search finds the value that comes first in the order of from times and, within one, of providers, and fails exactly if there is none |
| ValueLookup.FreeSearch | src/mod_wdb2ts/LocationElem.h:276-333 | without a provider `getValue` returns that first value and reports its provider and from time |
| ValueLookup.GivenProvider | src/mod_wdb2ts/LocationElem.h:276-333 | for a given provider, not trying hard: its own earliest value at the from times searched; else that of the first provider of the same name in the list that has one, whatever the place; else, with the from time cleared, its own; else nothing |
| ValueLookup.GivenProviderMisses | src/mod_wdb2ts/LocationElem.h:276-333 | so there is no value exactly if none of these has one |
| ValueLookup.GivenProviderHard | src/mod_wdb2ts/LocationElem.h:276-333 | for a given provider, trying hard: its own earliest value, else the first of all in the order of from times and priorities |
| ValueLookup.SameBaseName | src/mod_wdb2ts/LocationElem.h:287-314 | with a provider and without trying hard any value comes from a provider of the same base name, and the caller's provider stays |
| ValueLookup.SameNameFirst | src/mod_wdb2ts/LocationElem.h:292-314 | among providers of the same base name the first in priority order that has a value is taken |
| ValueLookup.TryingHard | src/mod_wdb2ts/LocationElem.h:316-330 | trying hard misses exactly if neither the requested nor any listed provider has a value |
| ValueLookup.UsedIsSource | src/mod_wdb2ts/LocationElem.h:165-333 | after a search that finds a value the last used provider is the one that the value comes from |
| LocationElem.LocationElem.GetValueImpl | src/mod_wdb2ts/LocationElem.h:165-274 | the loops compute the first hit, and leave provider, from time and last used provider as they should be |
| LocationElem.LocationElem.GetValue | src/mod_wdb2ts/LocationElem.h:276-333 | value, provider, from time and last used provider of the three-stage search |
| Precipitation.SortedDescendingIs | src/mod_wdb2ts/LocationElem.cpp:51-67 | sorting gives a descending vector with the same sum |
| Precipitation.SortedContents | src/mod_wdb2ts/LocationElem.cpp:51-67 | sorting is a permutation |
| Precipitation.MaxInVector | src/mod_wdb2ts/LocationElem.cpp:69-76 | the greatest probability, FLT_MIN at least, missing if one is missing |
| Precipitation.WeightedSumBound | src/mod_wdb2ts/LocationElem.cpp:577-738 | Abel summation: the weighted descending spreads come to at most their plain sum |
| Precipitation.SpreadBounds | src/mod_wdb2ts/LocationElem.cpp:725-757 | for hourly 0 <= min <= mean <= max: sum of least <= minOut <= meanOut <= maxOut, every hourly greatest <= maxOut, and the aggregated spread is at most the sum of the hourly spreads |
| Precipitation.SpreadExactly | src/mod_wdb2ts/LocationElem.cpp:725-757 | where the hourly values do not limit it, the spread lies around the mean, half of the spreads weighted by 0.98, 0.60, 0.64, 0.32, 0.39 and 1.75 to each side |
| Precipitation.Aggregate | src/mod_wdb2ts/LocationElem.cpp:696-760 | the values for one hour, for two to six hours, and for longer periods, missing values and the greatest probability included |
| PrecipitationSeries.WindowHolds | src/mod_wdb2ts/LocationElem.cpp:609-628 | the loop over a period visits, in order, exactly the to-times from its first hour to its end, if that hour is there |
| PrecipitationSeries.SameMeans | src/mod_wdb2ts/LocationElem.cpp:626-694 | reading least, greatest and probability between the means disturbs neither provider nor from time |
| PrecipitationSeries.MeansAgree | src/mod_wdb2ts/LocationElem.cpp:803-877 | from the same state, for non-negative hourly means, `PRECIP_MEAN` succeeds where `PRECIP_MIN_MAX_MEAN` does and gives the same mean, start time and provider, the switch to equal times included |
| PrecipitationSeries.PeriodBounds | src/mod_wdb2ts/LocationElem.cpp:696-760 | the spread bounds for the hours that were read |
| HourlyValues.PeriodMeanIs | src/mod_wdb2ts/LocationElem.cpp:803-877 | for a given provider: the sum of the means stored from the to-time before, up to the first hour without one, and with from time equal to to-time from there on; nothing if one of these is missing |
| HourlyValues.PeriodHoursAre | src/mod_wdb2ts/LocationElem.cpp:569-694 | the hourly least, greatest and mean values and probabilities are read from the same from times, and all but the probabilities must be there |
| HourlyValues.PeriodIs | src/mod_wdb2ts/LocationElem.cpp:600-628 | the hours are the to-times from one hour after the start of the period to its end, if the first of them is in the series |
| HourlyValues.PeriodMeanChooses | src/mod_wdb2ts/LocationElem.cpp:803-877 | without a provider or trying hard, the mean is that of the provider found in the first hour |
| HourlyValues.PeriodHoursChoose | src/mod_wdb2ts/LocationElem.cpp:569-694 | so are the hourly values |
| LocationElem.LocationElem.PrecipMinMaxMean | src/mod_wdb2ts/LocationElem.cpp:569-761 | succeeds exactly if all hours can be read; then gives the start time and the aggregate of those hours |
| LocationElem.LocationElem.PrecipMean | src/mod_wdb2ts/LocationElem.cpp:803-877 | the sum of the hourly means of the period, the start time and the provider afterwards |
| LocationElem.LocationElem.PrecipN | src/mod_wdb2ts/LocationElem.cpp:955-1048 | the difference of accumulated values in each of the three layouts, or nothing |
| AccumulatedPrecipitation.PeriodAmountReads | src/mod_wdb2ts/LocationElem.cpp:955-1048 | for any number of providers: which values are read at the end and at the start of the period, for which provider and from time, both times hard if it tries hard, and what the amount is |
| LocationElem.WalkBack | src/mod_wdb2ts/LocationElem.cpp:996-1007 | the walk finds the start time exactly if it is in the series behind the first to-time |
| AccumulatedPrecipitation.OneProvider | src/mod_wdb2ts/LocationElem.h:276-333 | with a single provider of accumulated values every search, hard or not, is a search for it |
| AccumulatedPrecipitation.PrecipNOfOneProvider | src/mod_wdb2ts/LocationElem.cpp:955-1048 | with a single provider `PRECIP_N` is a difference along its oldest run |
| AccumulatedPrecipitation.PrecipNAddsUp | src/mod_wdb2ts/LocationElem.cpp:955-1048 | three calls give values exactly when the amounts of that provider exist, and then add up exactly when these do, whichever branches they take |
| AccumulatedPrecipitation.SameRunAddsUp | src/mod_wdb2ts/LocationElem.cpp:1023-1042 | adjacent periods whose end and middle are read from one run add up, if the run is counted from its start in both periods that begin first or in none of them, and not in the last |
| AccumulatedPrecipitation.ByTimeAddsUp | src/mod_wdb2ts/LocationElem.cpp:988-1022 | adjacent periods whose end and middle are read from values stored with their own time add up, if so is the start, or its run passes through such a value in the first period |
| AccumulatedPrecipitation.AddsUpExactly | src/mod_wdb2ts/LocationElem.cpp:968-1042 | for every layout: amounts add up for all non-negative growing amounts if and only if the values are read alike |
| AccumulatedPrecipitation.CallsAddUpExactly | src/mod_wdb2ts/LocationElem.cpp:955-1048 | the same for three calls of `PRECIP_N` on a series of one provider, with any priority list and trying hard or not |
| AccumulatedPrecipitation.FromEarlierMeans | src/mod_wdb2ts/LocationElem.cpp:968-1042 | when nothing is accumulated from a later time on, being read alike means: end and middle from one run, or end, middle and start from values stored with their own time |
| AccumulatedPrecipitation.TwoRunsDoNotAddUp | src/mod_wdb2ts/LocationElem.cpp:955-1048 | two runs for which three calls give 2.0 and 1.0 for two hours, and 2.0 for both together |
| Symbols.AddedAllSorted | src/mod_wdb2ts/SymbolHolder.cpp:196-215 | any sequence of additions gives a sorted list of exactly those symbols |
| Symbols.SymbolHolder.AddSymbol | src/mod_wdb2ts/SymbolHolder.cpp:173-216 | the loop inserts before the first symbol that is not earlier; an unknown symbol changes nothing |
| Symbols.SymbolHolder.FindSymbol | src/mod_wdb2ts/SymbolHolder.cpp:218-237 | in a sorted list the early exit misses nothing |
| Symbols.SymbolHolder.FindSymbolsIncludedRange | src/mod_wdb2ts/SymbolHolder.cpp:357-395 | the range is the first run of covering symbols, without its last one when it reaches the end of the list |
| Symbols.SymbolHolder.ConsistentCheckThunder | src/mod_wdb2ts/SymbolHolder.cpp:398-451 | afterwards a symbol has thunder exactly if some thunder symbol of the other list has it in its range |
| Symbols.MergeKeepsSpan | src/mod_wdb2ts/SymbolGenerator.cpp:813-833 | merging sorted lists of one time span gives a sorted list of that span, although its symbols may reach differently far before and after their time; such lists are then checked for thunder |
| Symbols.ThunderExactly | src/mod_wdb2ts/SymbolHolder.cpp:357-451 | in every sorted list of one time span, added or merged: thunder is on exactly where the symbol covers a thunder symbol of the shorter span for which it is not the dropped end of a run |
| Symbols.ThunderWithoutOverlap | src/mod_wdb2ts/SymbolHolder.cpp:357-451 | without overlap: thunder exactly where the shorter span has thunder inside |
| Symbols.ConsistentExactly | src/mod_wdb2ts/SymbolHolder.cpp:357-451 | that holds for every list of the shorter span if and only if the last two symbols do not overlap |
| Symbols.ThunderMissedWithOverlap | src/mod_wdb2ts/SymbolHolder.cpp:385-394 | two six-hour symbols of which the last loses its thunder |
| Symbols.ThunderAllTheWayDown | src/mod_wdb2ts/SymbolHolder.cpp:780-800 | after the check every thunder symbol of any span covers a thunder symbol of each shorter span, down to the shortest |
| Symbols.CheckThunder | src/mod_wdb2ts/SymbolHolder.cpp:780-800 | every list is checked against the final list of the next shorter span; a single list is left alone |
| Symbols.ThunderConsistent | src/mod_wdb2ts/SymbolHolder.cpp:780-800 | the same for the holders that the check leaves behind |
| Symbols.ChainKeeps | src/mod_wdb2ts/SymbolHolder.cpp:780-800 | the check changes nothing of any symbol but thunder, and notes what there was before |
| Symbols.SymbolHolder.Merge | src/mod_wdb2ts/SymbolHolder.cpp:527-552 | null exactly for different spans, otherwise a new holder with the precedence merge |
| Symbols.PrecedenceMerge | src/mod_wdb2ts/SymbolHolder.cpp:537-544 | merging and dropping repeated from times gives a strictly sorted list that holds, for each from time of either list, our first symbol, else the other's |
| Symbols.MergeIsUnique | src/mod_wdb2ts/SymbolHolder.cpp:537-544 | that promise determines the list |
| Providers.DecodeName | src/mod_wdb2ts/ProviderList.cpp:48-134 | decoding a provider name is the inverse of src/mod_wdb2ts/ProviderList.h:89-94 |
| ProviderReftimes.MatchesExactly | src/mod_wdb2ts/ProviderReftimes.cpp:169-172 | a provider and place stand for that entry alone, a provider for all its places |
| ProviderReftimes.ProviderRefTimeList.UpdateDisableStatus | src/mod_wdb2ts/ProviderReftimes.cpp:158-181 | sets the flag of all matching entries and of no other, and counts exactly the entries that change |
| ProviderReftimes.ProviderRefTimeList.UpdateDataversion | src/mod_wdb2ts/ProviderReftimes.cpp:183-206 | the same for the data version |
| ProviderReftimes.ProviderRefTimeList.Disabled | src/mod_wdb2ts/ProviderReftimes.cpp:83-104 | the status of the first matching entry in name order |
| UpdateProviderReftimes.UpdateProviderRefTimes | src/mod_wdb2ts/UpdateProviderReftimes.cpp:57-200 | on an exception the list is untouched; otherwise it is the result of all requests in turn |
| UpdateProviderReftimes.ProcessRequest | src/mod_wdb2ts/UpdateProviderReftimes.cpp:78-195 | one request: flags, the question to the database, and its rows |
| UpdateProviderReftimes.ProcessRows | src/mod_wdb2ts/UpdateProviderReftimes.cpp:139-194 | every row sets its own entry, from the entry before, and no other |
| UpdateProviderReftimes.UnchangedIsIdentical | src/mod_wdb2ts/UpdateProviderReftimes.cpp:57-200 | a batch that reports no change has changed nothing |
| UpdateProviderReftimes.KeysKept | src/mod_wdb2ts/UpdateProviderReftimes.cpp:57-200 | no entry is ever removed |
| UpdateProviderReftimes.StepTakesOver | src/mod_wdb2ts/UpdateProviderReftimes.cpp:139-194 | every row of the answer is taken over: its reference time, and if that is new, the time of the answer and a reported change |
| UpdateProviderReftimes.StepAdds | src/mod_wdb2ts/UpdateProviderReftimes.cpp:186-193 | a row makes a new entry, with the requested flags, of an absent name or of another place |
| UpdateProviderReftimes.StepSets | src/mod_wdb2ts/UpdateProviderReftimes.cpp:145-184 | a known entry gets the flags that were requested and keeps the others; a new reference time begins without data version |
| UpdateProviderReftimes.StepLeaves | src/mod_wdb2ts/UpdateProviderReftimes.cpp:78-107 | entries without a row change by the requested flags alone, and no others come to be |
| UpdateProviderReftimes.AsksExactly | src/mod_wdb2ts/UpdateProviderReftimes.cpp:84-107 | the database is asked for a requested reference time, or if a flag changes of a provider that is enabled then |
| UpdateProviderReftimes.BatchTakesOver | src/mod_wdb2ts/UpdateProviderReftimes.cpp:57-200 | after a whole batch an entry has the reference time of the last row for it, stamped with the time of its answer if it was new, and the change is reported |
| UpdateProviderReftimes.StepKeepsEntry | src/mod_wdb2ts/UpdateProviderReftimes.cpp:145-184 | a request without a place, or for the entry itself, leaves the updated time alone unless the reference time changes, and the disable status and data version unless they were requested |
| UpdateProviderReftimes.UpdatedTimeKept | src/mod_wdb2ts/UpdateProviderReftimes.cpp:145-184 | over a whole batch the updated time stays while the database answers with the same reference time |
| UpdateProviderReftimes.DisabledKept | src/mod_wdb2ts/UpdateProviderReftimes.cpp:88-184 | over a whole batch the disable status stays while no request asks for it |
| UpdateProviderReftimes.OfProviderIs | src/mod_wdb2ts/transactor/ProviderRefTime.cpp:80-86 | the names that an answer can hold are those of the requested provider, with or without a place |
| UpdateProviderReftimes.NeverStampedExactly | src/mod_wdb2ts/UpdateProviderReftimes.cpp:57-200 | over whole batches: an entry keeps its updated time for all possible answers with its known reference time if and only if every request for which the batch can come to ask the database has no place, names the entry, or is for another provider (or, with a database that keeps to requested reference times, for another reference time) |
| UpdateProviderReftimes.NeverStampedByUpdates | src/mod_wdb2ts/UpdateProviderReftimes.cpp:57-200 | when all requests want a reference time: if and only if that holds of each of them, which can be read off beforehand |
| UpdateProviderReftimes.NeverStampedByOne | src/mod_wdb2ts/UpdateProviderReftimes.cpp:78-195 | for a single request: if and only if that holds of it or it does not ask |
| UpdateProviderReftimes.NeverSwitchedExactly | src/mod_wdb2ts/UpdateProviderReftimes.cpp:57-200 | over whole batches: an entry keeps its disable status for all possible answers if and only if after every request that can switch it, by itself or by a row, there is one that sets it back by itself |
| UpdateProviderReftimes.NeverSwitchedByUpdates | src/mod_wdb2ts/UpdateProviderReftimes.cpp:57-200 | when all requests want a reference time: if and only if none of them has the other status and can bring a row that sets it |
| UpdateProviderReftimes.OtherPlaceIsStamped | src/mod_wdb2ts/UpdateProviderReftimes.cpp:186-193 | a batch with a request for place a, and an answer that is possible, stamps and enables the entry of place b |
| SplitStr.Count | src/miutil/splitstr.cpp:91-111 | the number of separators outside strings |
| SplitStr.ElementsCount | src/miutil/splitstr.cpp:51-55 | the vector of that size plus one is exactly large enough |
| SplitStr.SplitString | src/miutil/splitstr.cpp:43-89 | the loop stores the trimmed elements in place |
| SplitStr.SplitJoin | src/miutil/splitstr.cpp:43-89 | splitting gives back any plain trimmed fields that were joined |
| SplitStr.SplitJoinProtected | src/miutil/splitstr.cpp:43-89 | so it does for fields with a part between protectors, in which separators do not count |
| Text.TrimIs | src/miutil/trimstr.cpp:31-60 | trimming cuts off blanks on both sides and nothing else |
| Calendar.NumberOfDate | src/miutil/ptimeutil.cpp:203-206 | every day has the date whose day it is |
| Calendar.DateOfNumber | src/miutil/ptimeutil.cpp:341 | every date is the date of its day, and of no other |
| Calendar.MonthTable | src/miutil/ptimeutil.cpp:341 | the days before each month in common and leap years |
| Calendar.YearTable | src/miutil/ptimeutil.cpp:341 | the days before each year: 366 in leap years and 365 in the others |
| IsoTime.NumberOfPad | src/miutil/ptimeutil.cpp:427-459 | a number with leading zeros is read back |
| IsoTime.ReadInt | src/miutil/ptimeutil.cpp:427-459 | reads exactly so many digits, or fails |
| IsoTime.ReadNumbers | src/miutil/ptimeutil.cpp:284-307 | the table loop: fields, optional separators, and where fields may end |
| IsoTime.PtimeFromIsoString | src/miutil/ptimeutil.cpp:220-348 | keywords, the older format, the six fields and the offset |
| IsoTime.RoundTrip | src/miutil/ptimeutil.cpp:187-348 | every printed time in the calendar's range is read back, with either separator and with or without the zone mark; so are both infinities; not-a-date-time is not |
| IsoTime.EpochIs | src/miutil/ptimeutil.cpp:249-251 | the keyword means second 0, the start of 1970-01-01, and is read like that time printed as text |
| IsoTime.DayKeywords | src/miutil/ptimeutil.cpp:252-265 | the present moment, the start of its day, and of the days before and after |
| IsoTime.CutOff | src/miutil/ptimeutil.cpp:284-307 | a printed time that is cut off after the day, hour or minute is read as the start of that; one cut off earlier is not read |
| IsoTime.HoursExactly | src/miutil/ptimeutil.cpp:309-347 | an offset of whole hours without minutes is always read right |
| IsoTime.OffsetExactly | src/miutil/ptimeutil.cpp:309-347 | a local time with its UTC offset is read as the time it denotes, if and only if the offset is not negative with zero hours and some minutes |
| NoteProviderReftime.IntReadBack | src/mod_wdb2ts/NoteProviderReftime.cpp:99-105 | every int that is printed is read back |
| NoteProviderReftime.LineLoads | src/mod_wdb2ts/NoteProviderReftime.cpp:86-117 | a saved line gives back its entry, or nothing when a time is not-a-date-time |
| NoteProviderReftime.LoadsExactly | src/mod_wdb2ts/NoteProviderReftime.cpp:81-117 | a line of plain fields is read exactly if there are at least four, two times and a number after the name; a fifth disables if it begins with t or T |
| NoteProviderReftime.SaveNote | src/mod_wdb2ts/NoteProviderReftime.cpp:46-68 | one line for each entry, in name order |
| NoteProviderReftime.LoadNote | src/mod_wdb2ts/NoteProviderReftime.cpp:70-141 | all lines or none; a later line for the same name wins |
| NoteProviderReftime.SaveLoad | src/mod_wdb2ts/NoteProviderReftime.cpp:46-141 | loading a saved list restores every name, reference time, updated time, data version and disable status with the request flags off, if and only if no time is not-a-date-time; otherwise nothing is loaded |
| NextRun.MetaModelConf.AddTimeDuration | src/mod_wdb2ts/MetaModelConf.cpp:121-133 | the list stays strictly sorted and gains just that duration |
| NextRun.MetaModelConf.AddEvery | src/mod_wdb2ts/MetaModelConf.cpp:161-170 | adds exactly offset, offset + every, ... within the day; ends if and only if `every` is not 0 or the offset is a day or more |
| NextRun.MetaModelConf.FindNextrun | src/mod_wdb2ts/MetaModelConf.cpp:89-119 | the search for each kind of specification |
| NextRun.NextInstantIsEarliest | src/mod_wdb2ts/MetaModelConf.cpp:101-110 | for durations below 24 hours: the earliest scheduled instant over all days that is not before now |
| NextRun.EarliestExactly | src/mod_wdb2ts/MetaModelConf.cpp:89-201 | for any durations: it is the earliest at every moment if and only if durations of a day or more only repeat others in a harmless way |
| NextRun.MissedRun | src/mod_wdb2ts/MetaModelConf.cpp:101-110 | for every list that does not meet that condition, a moment at which an earlier run is missed |
| NextRun.EveryIsSoon | src/mod_wdb2ts/MetaModelConf.cpp:161-170 | with `offset/every` the next run is at most offset + every seconds away |

## Left out

- RequestManager.WdbDataRequestManager.RunRequests: says nothing of the threads after `ResourceLimit`, because the source rethrows it without waiting for them.
- RequestManager.WdbDataRequestManager.FinishQuery: assumes that every query ends; `RequestRows.RunCommand` tells which commands do not.
- RequestManager.RequestData: the creation of the queries and their commands, and the query-maker path, which is marked as not in use.
- Answers.MergeData: the branch for polygon requests, which `RequestIterator` never takes (src/mod_wdb2ts/RequestIterator.cpp:107); and that the answer shares the time series of the first command instead of copying it.
- PointData.MergeTimeLoop: nested maps are values here, merged level by level, so iterators and aliasing of inner maps are not captured.
- RequestRows.RunCommand: what was read in an attempt that is repeated, because each attempt starts from nothing (src/mod_wdb2ts/transactor/WciRead.cpp:104).
- Answers.Decode: parsing of points, filters on data version and provider, renaming of providers, and the list of aliases that select a field.
- LocationElem.LocationElem.PrecipMinMaxMean: in a period of two to six hours with more than six to-times the source reads weights from behind its table; the model takes any weights there, so least and greatest are then not determined.
- Precipitation.Aggregate: float rounding; values are reals, and FLT_MAX is a missing value.
- AccumulatedPrecipitation.CallsAddUpExactly: more than one provider.
- ReadyQueue.AlwaysInOrder: mutual exclusion itself; a critical section is one step on values, not code on a locked object.
- Symbols.SymbolHolder.AddSymbol: light state, probability and the state of aggregate of a symbol; the time stamp in the symbol is the one that is passed in.
- Symbols.SymbolHolder.FindSymbol: calls that restrict or correct symbols otherwise (height, wet bulb temperature, other ranges).
- UpdateProviderReftimes.UpdateProviderRefTimes: the text of the database query; the second form that rebuilds the whole list.
- IsoTime.IsoText: fractions of a second, which the printer drops.
- IsoTime.ParseIso: the format of RFC 1123 and the clock are parameters.
- NoteProviderReftime.SaveLoad: names that are not trimmed or hold `|`, `"` or a line end.
- NextRun.MetaModelConf.AddEvery: overflow of an int in the step.
- Database pools, transactions, logging, profiling, file locking, Apache handlers and projections: input and output.
- Parsing of configuration files, `removeDisabledProviders` and the accessors that only forward to `getValue`: easy members.
