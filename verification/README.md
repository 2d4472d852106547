# logme: a verified model

This project models the parts of the logme logging library and of its tools `logmefmt` and
`logmeobf` whose correctness cannot be read off one function, and proves what they are for.
`dafny verify dfyconfig.toml` checks all of it.

- **The asynchronous file pipeline** (`FlushProtocol`, `FlushInvariants`, `FlushLedger`,
  `FlushTheorems`, `FlushCalls`). Appenders, `Flush` callers and the management thread are one state
  machine; a step is one lock section or one access to an atomic. Any number of `Flush` callers and
  any interleaving is allowed. `FlushLedger` is a smaller machine of the places an append can be in;
  every step of the protocol is a move of the ledger, so byte counts and appends are conserved.
  `FlushCalls` follows one request, one record, one `Flush` or one run of the worker from its
  beginning to its end in a run: what time it leaves behind, what it writes, whom it notifies.
- **The buffers under it** (`DataBuffers`, `BufferQueues`). The queue's fields are updated by its
  methods, each public method being one atomic step. Its `Valid` says where every buffer is, that
  appends leave in the order they came, and what the limits are; every method keeps it.
- **Two quiescence protocols.** `SubsystemLevels` and `SnapshotProtocol` are the sorted table of
  levels, its binary search, and the publication and reclamation of snapshots under readers; what a
  reader is told is tied to the last change of its key in the run.
  `StatisticsProtocol` is the entry and the second look of recorders against start, stop and reset,
  and the channel slots of a call site, looked up without a lock and made under one;
  `StatisticsTotals` is what the counters of call sites add up to. `Counting` adds up over threads.
- **Routing** (`ReentryGuards`, `Channels`). `Display` recurses through links that may form cycles;
  the guard is one stack behind two representations.
- **Trace points** (`TracePoints`). The matcher that remembers the last star, against the recursive
  meaning of patterns, and that against the meaning of each character.
- **Formatting** (`FastFormats`, `IntPrinter`). The analysed and cached format against the plain
  expansion; digits two at a time, from the right, against decimal notation.
- **Records of logmefmt** (`LogRecords`, `JsonRecords`, `XmlRecords`). Printers and parsers, exactly
  which records come back, and which records of other printers are read or refused.
- **Obfuscated streams of logmeobf** (`ChaCha20`, `TextRecords`, `ObfuscatedRecords`). Cutting a text
  into records, framing and masking them, and reading the stream back. The block function is set
  against the description in RFC 8439. The library's own record functions in
  `logme/source/Obfuscate.cpp` do the same steps.
- **Collapsing and the memory backend** (`Collapse`, `BufferBackends`).

## Where the properties stop

- **A Flush before the first record.** The manager ignores notifications of a backend that is not
  registered, and only a record registers it. A `Flush` whose notification comes before that leaves
  `FlushTime` at `RIGHT_NOW` and returns. Every later request then gives up, so nothing is ever
  written and, after a record, every further `Flush` sleeps for good
  (`FlushTheorems.EarlyFlushLosesRecord` is the run, `IgnoredIsForever` what follows). It happens
  exactly when `FlushTime` is set, and no notification on its way, at the moment `Registered` is
  stored (`RegistrationDecides`); a Flush between `AddBackend` and that store counts. A backend that
  sees no Flush before its first record is safe (`RecordFirstIsSafe`). Of `NoLostWakeup` this leaves:
  bytes that wait always mean a `FlushTime` that is set or about to be, but the manager hears of a set
  `FlushTime` exactly when no notification was ignored (`SetTimeIsKnown`).
- **Trace points.** The matcher compares a character with the pattern's before it looks for a star, so
  a `*` in the text is taken literally. It agrees with the meaning of all patterns for exactly the
  texts without a star (`TracePoints.AgreesIffNoStarInText`, `SelectsIffNoStarInKey`). The key of a
  method named `operator*` is such a text, and the pattern that spells it misses it
  (`OperatorStarIsMissed`). Nothing is ever selected that the pattern does not mean.
- **Collapsing.** `examples/Collapse/README.md` has the first message printed at once. A new call site
  starts with the empty key, so a first message whose key is empty can be held back
  (`Collapse.FirstMessageShown` says when). Repeats that another key cuts off are never reported
  (`CountRunEnds`, `TimeRunEnds` say how many).
- **Statistics.** A site whose file or method was shortened is not found again, so each search makes
  another one (`StatisticsTotals.SiteFoundAgain`); totals are not affected.
- **JSON records.** A control character without a short escape is printed as `\u00XX` and comes back
  as those six characters. A record comes back unchanged exactly when it has none.
- **XML records.** A record comes back exactly when no field name holds `>`, a space, a tab or a line
  end, or starts with `/`.

## Model

| member | source | states |
|---|---|---|
| FlushTheorems.NoLostWakeup | logme/source/Backend/FileBackend.cpp:1523-1665 | In every state of every run, bytes in the current buffer, the ready list or a buffer in somebody's hands mean that FlushTime is not 0 or a thread in mid-operation is bound to set it |
| FlushTheorems.SetTimeIsKnown | logme/source/File/FileManager.cpp:1049-1075 | A FlushTime that is set is known to the manager (linked, being run, or its notification on the way) exactly when no notification of the backend was ignored |
| FlushTheorems.IdleMeansDone | logme/source/File/FileManager.cpp:1089-1238 | Once the callers are quiet and the management thread waits without a time-out, everything accepted is finished and every sleeping Flush has been notified, exactly when no notification was ignored or nothing was accepted |
| FlushTheorems.RegistrationDecides | logme/source/Backend/FileBackend.cpp:730-742 | Whether a notification is ever ignored, and so what every later rest of the manager means, is decided when Registered is stored: FlushTime set with no notification on its way, or not |
| FlushTheorems.IgnoredMeans | logme/source/File/FileManager.cpp:1054-1058 | A notification has been ignored exactly when a Flush caller sent one before the first record registered the backend |
| FlushTheorems.IgnoredIsForever | logme/source/Backend/FileBackend.cpp:1017-1026 | After an ignored notification FlushTime stays RIGHT_NOW unknown to the manager, nothing is ever written, and once a record is accepted every Flush goes to sleep |
| FlushTheorems.EarlyFlushLosesRecord | logme/source/Backend/FileBackend.cpp:513-533 | The failing run, for every record that fits: a Flush, then the record; everybody is at rest and its bytes are still queued |
| FlushTheorems.RecordFirstIsSafe | logme/source/Backend/FileBackend.cpp:744-751 | Without a Flush before the first record has registered the backend, no notification is ever ignored |
| FlushTheorems.FlushReturnsAfterWriting | logme/source/Backend/FileBackend.cpp:513-533 | A Flush returns only when every append counted before that moment has been written or has failed |
| FlushTheorems.QueuedBytesExact | logme/source/Backend/FileBackend.cpp:1252-1475 | QueuedBytes never underflows, the writer never takes off more than it holds, and with no append in progress it is the bytes not yet finished |
| FlushTheorems.RunKeepsInv | logme/source/Backend/FileBackend.cpp:867-1048 | The whole invariant, registration and ignored notifications included, holds in every state of every run |
| FlushTheorems.InvKept | logme/source/Backend/FileBackend.cpp:867-1048 | Every step of every thread keeps the whole invariant |
| FlushCalls.RequestMeetsItsTime | logme/source/Backend/FileBackend.cpp:983-1048 | Every request of a record or a Flush, in any run, ends only after FlushTime was set and no later than it asked for, at some moment since it began |
| FlushCalls.CallersOnlyAdvance | logme/source/Backend/FileBackend.cpp:983-1048 | No request puts FlushTime off: callers leave it, set it or make it earlier |
| FlushCalls.FlushAsksForNow | logme/source/Backend/FileBackend.cpp:513-533 | A Flush comes to its wait only after FlushTime was RIGHT_NOW at some moment of the call |
| FlushCalls.FlushPublishesFirst | logme/source/Backend/FileBackend.cpp:513-533 | A Flush publishes until it finds the current buffer empty or is given no replacement, and only then asks |
| FlushCalls.RecordAsksInTime | logme/source/Backend/FileBackend.cpp:867-981 | A record under pressure, or with the first bytes of a buffer while nothing is asked for, ends only after FlushTime was as early as that asks |
| FlushCalls.RecordStoresItsTime | logme/source/Backend/FileBackend.cpp:926-981 | A record stores no other time than its decision plus the delay, and RIGHT_NOW only under pressure |
| FlushCalls.RecordIsAcceptedOnce | logme/source/Backend/FileBackend.cpp:867-981 | A record is accepted once; it is refused only when it fitted no current buffer and none could be had for it |
| FlushCalls.RecordJoinsDeadline | logme/source/Backend/FileBackend.cpp:893-924 | A record that finds a deadline gives its buffer the first-write time that leads to the same deadline |
| FlushCalls.ImmediateRunWrites | logme/source/Backend/FileBackend.cpp:1596-1665 | A run of the worker begun with RIGHT_NOW writes a batch before it looks at FlushTime again, unless there is nothing to publish or no replacement |
| FlushCalls.WorkerKeepsDeadline | logme/source/Backend/FileBackend.cpp:1523-1594 | When the worker has seen bytes first written at some time, the FlushTime it leaves is set and at most the delay after that time |
| FlushCalls.WorkerWaitsForDelay | logme/source/Backend/FileBackend.cpp:1523-1565 | The worker does not cut the delay short: it stores no time before the oldest bytes it saw plus the delay, unless they are due |
| FlushCalls.FlaggedDataGetsDelay | logme/source/Backend/FileBackend.cpp:1567-1594 | Bytes seen only by the flag of the current buffer get the whole delay |
| FlushCalls.NothingQueuedNotifies | logme/source/Backend/FileBackend.cpp:1252-1475 | Whenever the worker finds nothing queued it notifies all Flush callers before it goes on |
| FlushInvariants.WakeKeptByRecheck | logme/source/Backend/FileBackend.cpp:1567-1594 | The second look and the stores after it keep the wake-up invariant: data that came in before FlushTime was cleared is seen, through the ready list or one of the two mirrors |
| FlushInvariants.WakeKeptByLook | logme/source/Backend/FileBackend.cpp:1523-1565 | The first look and the exchange of FlushTime for 0 keep the wake-up invariant, because the worker then owes a second look |
| FlushInvariants.WakeKeptByFlusher | logme/source/Backend/FileBackend.cpp:513-533 | The steps of Flush keep the wake-up invariant: a caller that takes the current buffer owes a flush for it (what time its request leaves is FlushCalls.RequestMeetsItsTime) |
| FlushInvariants.LinkKeptByWait | logme/source/File/FileManager.cpp:1049-1075 | A Flush caller's request keeps the manager's invariant: with FlushTime set, the backend is linked, being run or about to be notified exactly when no notification was ignored; a notification before registration is |
| FlushInvariants.RegisterKept | logme/source/Backend/FileBackend.cpp:730-742 | Before registration no step links or runs the backend or writes, FlushTime is 0 or RIGHT_NOW, and at most one Flush caller has a notification to send |
| FlushInvariants.SleepKeptByWriter | logme/source/Backend/FileBackend.cpp:1252-1475 | The writer keeps the invariant of the wait: with QueuedBytes at 0, a caller asleep since the last notification is about to be notified |
| FlushLedger.StepRefinesLedger | logme/source/Backend/FileBackend.cpp:867-981 | Every step of the protocol is one move of the ledger of appends |
| FlushLedger.LedgerInvKept | logme/source/Backend/FileBackend.cpp:893-924 | No move loses, copies or makes up an append, or miscounts its bytes |
| FlushLedger.QueuedNeverUnderflows | logme/source/Backend/FileBackend.cpp:1252-1475 | What the writer takes off QueuedBytes is never more than it holds |
| FlushLedger.NothingQueuedMeansAllFinished | logme/source/Backend/FileBackend.cpp:513-533 | QueuedBytes 0 means that the appends counted are exactly the appends finished |
| DataBuffers.DataBuffer.Append | logme/source/Buffer/DataBuffer.cpp:80-84 | Copies the bytes behind what is there; earlier bytes stay |
| DataBuffers.DataBuffer.CanAppend | logme/source/Buffer/DataBuffer.cpp:75-78 | Exactly whether the bytes fit |
| DataBuffers.DataBuffer.Reset | logme/source/Buffer/DataBuffer.cpp:46-51 | Leaves an empty buffer without times or marks |
| BufferQueues.BufferQueue.Append | logme/source/Buffer/BufferQueue.cpp:96-184 | Takes the whole payload behind all others or changes no queued byte, and is refused exactly when the buffer is full and cannot be replaced or the payload is too long; says what becomes of the current buffer, the free list and the adaptive limit in each case |
| BufferQueues.BufferQueue.PublishCurrent | logme/source/Buffer/BufferQueue.cpp:266-304 | Moves the current buffer behind the ready list, or fails and changes no queued byte; signals exactly when nothing was signalled; says what becomes of the free list and the adaptive limit |
| BufferQueues.BufferQueue.TakeReady | logme/source/Buffer/BufferQueue.cpp:206-228 | Hands out the ready list whole and in order, and resets the signal |
| BufferQueues.BufferQueue.Recycle | logme/source/Buffer/BufferQueue.cpp:230-245 | Puts buffers back, emptied, and keeps every count |
| BufferQueues.BufferQueue.TrimFreeBuffersIfIdle | logme/source/Buffer/BufferQueue.cpp:397-401 | Lowers the adaptive limit as far as the free list allows and keeps no more free buffers than it |
| BufferQueues.BufferQueue.DecayFreeLocked | logme/source/Buffer/BufferQueue.cpp:616-635 | The adaptive limit after the decay, in closed form, and the free list cut to it |
| BufferQueues.BufferQueue.MaybeGrowAdaptive | logme/source/Buffer/BufferQueue.cpp:593-614 | Grows the limit by one, and only below its cap |
| BufferQueues.BufferQueue.EnqueueReady | logme/source/Buffer/BufferQueue.cpp:569-591 | An empty buffer is released, any other goes last; the signal is asked for once |
| BufferQueues.BufferQueue.TakeReplacement | logme/source/Buffer/BufferQueue.cpp:465-539 | A replacement is found exactly when a buffer is free or the total may grow |
| SubsystemLevels.LowerBound | logme/source/Logger.cpp:784-792 | The first place whose key is not smaller, by halving |
| SubsystemLevels.LookupIsMembership | logme/source/Logger.cpp:813-827 | Binary search finds a level exactly when the table holds that entry |
| SubsystemLevels.LevelTable.SetSubsystemLevel | logme/source/Logger.cpp:777-800 | Replaces or inserts in place and publishes, unless the logger was shut down or the id is 0; the table stays strictly sorted |
| SubsystemLevels.LevelTable.RemoveSubsystemLevel | logme/source/Logger.cpp:836-858 | Erases the entry and publishes exactly when there was one |
| SubsystemLevels.LevelTable.ClearSubsystemLevels | logme/source/Logger.cpp:860-865 | Leaves the empty table and publishes |
| SubsystemLevels.LookupAfterSet | logme/source/Logger.cpp:777-800 | After a set every lookup answers as before, except that key's |
| SubsystemLevels.LookupAfterRemove | logme/source/Logger.cpp:836-858 | After a removal every lookup answers as before, except that key's |
| SnapshotProtocol.NoUseAfterReclaim | logme/source/Logger.cpp:689-775 | No reader, in any run, uses a snapshot that has been reclaimed |
| SnapshotProtocol.SnapshotsBounded | logme/source/Logger.cpp:724-775 | Whenever the writer is done at most 64 snapshots remain, the active one among them |
| SnapshotProtocol.CallIsLinearizable | logme/source/Logger.cpp:802-834 | A finished lookup answers for a table that was the published one at some moment during the call (for what the changes say, AnswerIsLastChange) |
| SnapshotProtocol.TableFollowsChanges | logme/source/Logger.cpp:777-865 | In every state the table answers for each key with its last set, remove or clear among the actions so far |
| SnapshotProtocol.AnswerIsAChange | logme/source/Logger.cpp:802-834 | A finished lookup answers as the changes say at some moment between the last change published before it began and its end |
| SnapshotProtocol.AnswerIsLastChange | logme/source/Logger.cpp:777-865 | A lookup that begins after a change was published and ends before the next change of its key answers that change: the level set, or nothing after a removal or a clear |
| SnapshotProtocol.RunKeepsInv | logme/source/Logger.cpp:689-775 | The invariant behind these holds in every state of every run |
| StatisticsProtocol.RecordNeverOverlapsReset | logme/source/LogStatistics.cpp:1795-1812 | While a reset clears counters no Record is in progress, for any number of recorders |
| StatisticsProtocol.StoppedMeansQuiet | logme/source/LogStatistics.cpp:1779-1793 | After StopLogStatistics returned no Record is in progress, however late a thread enters |
| StatisticsProtocol.CommandTakesEffect | logme/source/LogStatistics.cpp:1760-1812 | Start turns statistics on, Stop turns them off, Reset leaves them as they were; Start and Reset forget all messages, Stop none |
| StatisticsProtocol.RecordedOnce | logme/source/Logger.cpp:1515-1530 | A message that arrives while statistics are on, and is through before another command, is recorded once |
| StatisticsProtocol.CountersExact | logme/source/LogStatistics.cpp:496-535 | With no Record in progress a slot's counters are the number, the sum and the maximum of exactly its channel's messages since the reset, whatever the interleaving of the updates and of the making of slots |
| StatisticsProtocol.OverflowExact | logme/source/LogStatistics.cpp:531-534 | The overflow counts exactly the messages of channels without a slot, and there are such only when all slots belong to others |
| StatisticsProtocol.NothingLostBetweenSlots | logme/source/LogStatistics.cpp:496-535 | The five counters of a site together count every message of all recorders once, and all their bytes |
| StatisticsProtocol.PlaceKeptByLooking | logme/source/LogStatistics.cpp:511-534 | Looking without the lock and making a slot under it gives two channels never one slot and one channel never two, and moves no message counted so far |
| StatisticsProtocol.MaxKeptByRecorder | logme/source/LogStatistics.cpp:100-116 | The compare-exchange loop of the maximum never loses a larger message |
| StatisticsTotals.Collector.Record | logme/source/LogStatistics.cpp:496-535 | All three figures over all sites grow by exactly this message, in the site of the call alone: the remembered one, that found for the key, or a new one |
| StatisticsTotals.RecordInSite | logme/source/LogStatistics.cpp:511-534 | The message is counted in its channel's slot, else in the first free one, else in the overflow, and nothing else changes |
| StatisticsTotals.GetOrCreateChannel | logme/source/LogStatistics.cpp:685-720 | The channel's slot or a new one, slots filled from the front with distinct keys; none exactly when all belong to others |
| StatisticsTotals.Collector.GetOrCreateSite | logme/source/LogStatistics.cpp:649-683 | The site remembered for the key when its texts are those of the call, otherwise one more, with its texts shortened |
| StatisticsTotals.SiteFoundAgain | logme/source/LogStatistics.cpp:649-683 | A call site finds its own site again exactly when shortening keeps its file and its method |
| StatisticsTotals.Collector.Reset | logme/source/LogStatistics.cpp:479-494 | Every figure is 0 afterwards; sites, channels and the key table stay |
| StatisticsTotals.StopAtFirstEmpty | logme/source/LogStatistics.cpp:839-843 | Stopping at the first empty slot loses nothing |
| StatisticsTotals.Collector.SnapshotEntries | logme/source/LogStatistics.cpp:827-878 | The rows add up to the number, bytes and maximum of the messages recorded |
| StatisticsTotals.SiteRowsMean | logme/source/LogStatistics.cpp:835-874 | The rows of a site are its channels and its overflow, named and placed as they are, where there are records, and no others |
| StatisticsTotals.RowsMean | logme/source/LogStatistics.cpp:833-877 | A row is shown exactly when a site has it |
| StatisticsTotals.SiteRowsFigure | logme/source/LogStatistics.cpp:837-874 | The rows of one site add up to the site |
| StatisticsTotals.Collector.SnapshotChannels | logme/source/LogStatistics.cpp:880-904 | Each channel name with a row is shown with the figures of exactly its rows, and all together add up to the messages recorded |
| StatisticsTotals.ClearedSite | logme/source/LogStatistics.cpp:294-308 | Every channel of a site keeps its slot and its name and loses its counts |
| StatisticsTotals.SnapshotSite | logme/source/LogStatistics.cpp:837-874 | Adds the rows of one site, up to its first empty slot, and its overflow |
| ReentryGuards.GuardState.Enter | logme/source/ReentryGuard.cpp:12-50 | Enters exactly when the channel is not on the stack, and pushes it, in either representation |
| ReentryGuards.GuardState.Leave | logme/source/ReentryGuard.cpp:52-65 | Pops what the matching entry pushed; a refused entry pops nothing |
| ReentryGuards.GuardState.PromoteToOverflow | logme/source/ReentryGuard.cpp:78-89 | Changing from the array to the vector keeps the stack |
| Channels.Channel.Display | logme/source/Channel.cpp:134-216 | Terminates on every finite graph, delivers what the specification says and leaves the guard as it was (on the fields alone, OwnBackendsTake and LinkIsFollowed) |
| Channels.OwnBackendsTake | logme/source/Channel.cpp:134-216 | The unfrozen backends of a channel off the stack take a message exactly when the channel is enabled, its filter agrees, and the message has the level of its subsystem, where one is set, or else of the channel |
| Channels.LinkIsFollowed | logme/source/Channel.cpp:172-213 | A message let in goes on to the linked channel, and before the own backends, exactly when links are allowed |
| Channels.DeliveriesFollowChain | logme/source/Channel.cpp:134-216 | Those deliveries are the backends of the channels on the maximal walk along links over admitting, distinct channels, the last channel first |
| Channels.ChainExists | logme/source/Channel.cpp:134-216 | Such a walk exists for every graph, cyclic or not, and every guard stack |
| Channels.DeliveredOnceAlongChain | logme/source/Channel.cpp:207-213 | A message reaches exactly the unfrozen backends of the channels on that walk, each once |
| Channels.InactiveDeliversNothing | logme/source/Channel.cpp:108-121 | When IsOutputActive is false no backend would have taken the message |
| Channels.EarlyTestIsExact | logme/source/Channel.cpp:108-121 | For a channel without link and filter that has an unfrozen backend, and a message no subsystem level applies to, IsOutputActive holds exactly when something is delivered |
| Channels.Channel.AddLink | logme/source/Channel.cpp:79-90 | Sets the link and keeps Active equal to linked or enabled with backends |
| Channels.Channel.AddLinkByName | logme/source/Channel.cpp:68-77 | The same for a link by name |
| Channels.Channel.RemoveLink | logme/source/Channel.cpp:92-101 | Clears both links; the channel stays active exactly with backends and enabled |
| Channels.Channel.SetEnabled | logme/source/Channel.cpp:382-386 | Keeps Active in step |
| Channels.Channel.AddBackend | logme/source/Channel.cpp:305-324 | Adds a backend once, at the end |
| Channels.Channel.RemoveBackend | logme/source/Channel.cpp:285-303 | Freezes and removes that backend alone |
| Channels.Channel.RemoveBackends | logme/source/Channel.cpp:274-283 | Freezes and removes all |
| TracePoints.WildcardMatchInternal | logme/source/TracePoint.cpp:27-65 | Terminates; never accepts what the pattern does not mean; without a star in the text accepts exactly what it means |
| TracePoints.AgreesIffNoStarInText | logme/source/TracePoint.cpp:27-65 | Agrees with the meaning of all patterns exactly for the texts without a star |
| TracePoints.GreedyIsComplete | logme/source/TracePoint.cpp:37-57 | Forgetting all but the last star loses no match |
| TracePoints.GreedyIsSound | logme/source/TracePoint.cpp:37-57 | From every state of the loop, acceptance means a match from here or from a later start |
| TracePoints.TracePointMatch | logme/source/TracePoint.cpp:89-100 | Selects only points the pattern means, and for a key without a star all of them; an empty pattern selects every point, and case plays no part |
| TracePoints.MatchesInARow | logme/source/TracePoint.cpp:27-65 | Two patterns in a row match exactly the texts that can be cut into a part for each |
| TracePoints.OneCharacter | logme/source/TracePoint.cpp:27-65 | A star takes any text, a question mark any one character, another character itself |
| TracePoints.GlobIsMatch | logme/source/TracePoint.cpp:27-65 | That meaning is the one the matcher is compared with |
| TracePoints.CasePlaysNoPart | logme/source/TracePoint.cpp:12-25 | Two patterns that differ in the case of letters select the same points |
| TracePoints.LowerMeans | logme/source/TracePoint.cpp:12-25 | Lower-casing identifies exactly the texts that differ in the case of ASCII letters |
| TracePoints.KeySelects | logme/source/TracePoint.cpp:67-100 | A pattern without wildcards selects exactly the points whose key it is but for case |
| TracePoints.PartsSelect | logme/source/TracePoint.cpp:67-100 | A point is selected by its module, by its module and method, and by those with its line |
| TracePoints.EmptyNames | logme/source/TracePoint.cpp:67-94 | A missing module or method is one with an empty name, and the empty pattern selects every point |
| TracePoints.SelectsIffNoStarInKey | logme/source/TracePoint.cpp:89-100 | A point is selected by exactly the patterns that mean it, if and only if its key has no star |
| TracePoints.OperatorStarIsMissed | logme/source/TracePoint.cpp:67-78 | A method whose name ends in a star, such as operator*, is missed by the pattern that spells its module and name |
| IntPrinter.PrintIntJeaiii | logme/source/IntJeaiii.cpp:6-142 | -1 exactly for a null buffer or one no longer than the decimal text; otherwise that text and a NUL, nothing else changed |
| IntPrinter.PrintBackwards | logme/source/IntJeaiii.cpp:66-141 | The digits written backwards in pairs end exactly at the first digit's place and are the notation |
| IntPrinter.DecimalLength | logme/source/IntJeaiii.cpp:99-109 | The thresholds of the printer give the number of digits |
| IntPrinter.DecimalReadsBack | logme/source/IntJeaiii.cpp:6-142 | Reading the notation gives the number; it has no leading zero |
| IntPrinter.TwoDigitTable | logme/source/IntJeaiii.cpp:12-22 | The table holds every two-digit number at its place |
| FastFormats.BuildFastFormat | logme/source/FastFormat.cpp:398-532 | Accepts exactly the formats under 48 characters with at most two known conversions, cuts them at them, and hints the longest text and two more characters, rounded up to 32 |
| FastFormats.SupportedMeans | logme/source/FastFormat.cpp:413-488 | The formats accepted are those under 48 characters made of plain parts and at most two of %s, %d, %i, %u and %p |
| FastFormats.PatternExpands | logme/source/FastFormat.cpp:534-601 | The expansion of such a format is its plain parts with the text of each argument between them, in order |
| FastFormats.KindAsksFor | logme/source/FastFormat.cpp:339-378 | Each conversion character asks for the argument printf does, and no other is known |
| FastFormats.HexReadsBack | logme/source/FastFormat.cpp:373-391 | The lower-case hexadecimal notation reads back as the number and has no leading zero |
| FastFormats.NumberTextReadsBack | logme/source/FastFormat.cpp:333-396 | The text of a number or a pointer reads back as it |
| FastFormats.LongestIsReached | logme/source/FastFormat.cpp:313-331 | The longest text allowed for a kind of argument is reached by one of them |
| FastFormats.HintedMeans | logme/source/FastFormat.cpp:512-530 | An entry has a size hint exactly when the format is accepted and has no %s |
| FastFormats.JoinedIsExpansion | logme/source/FastFormat.cpp:534-601 | The parts of an accepted format with the arguments between them are the plain expansion |
| FastFormats.ExecuteFastFormat | logme/source/FastFormat.cpp:534-601 | Succeeds exactly for a supported format and leaves the expansion, cut to the buffer, NUL-terminated |
| FastFormats.CopyBounded | logme/source/FastFormat.cpp:194-212 | Appends and cuts: the buffer holds the longer text, cut |
| FastFormats.AppendArg | logme/source/FastFormat.cpp:333-396 | Appends the text of one argument, cut |
| FastFormats.HintIsEnough | logme/source/Logger.cpp:1474-1490 | A buffer of the hinted size is never cut, for all arguments |
| FastFormats.ThreadCache.FindFastFormat | logme/source/FastFormat.cpp:153-183 | Finds an entry of that format exactly when the call site or the ring holds one, and moves the call site from empty to ready to disabled |
| FastFormats.ThreadCache.TryFastFormat | logme/source/FastFormat.cpp:604-641 | The outcome depends on the text at the address, the arguments and the size alone, whatever the caches hold; afterwards the format is held by the site or the ring, and the ring changes only when neither held it |
| FastFormats.ThreadCache.FormatMessage | logme/source/Logger.cpp:1464-1507 | With a hint the message is the whole expansion, without one it is cut to 16382 characters; a site left ready is hinted exactly when its format is accepted and has no %s |
| JsonRecords.JsonRoundTrip | tools/logmefmt/main.cpp:332-389 | What comes back of every record; it is the record exactly when it has no control character without a short escape |
| JsonRecords.LooseRecordIsRead | tools/logmefmt/main.cpp:322-389 | Every record of quoted and raw values, with any spaces around its parts, is read with its names and values, the last field raw included |
| JsonRecords.CutRecordIsRefused | tools/logmefmt/main.cpp:332-389 | Every proper beginning of a printed record is refused |
| JsonRecords.NeedsBrace | tools/logmefmt/main.cpp:341-346 | A line that does not open with a brace is no record |
| JsonRecords.NeedsColon | tools/logmefmt/main.cpp:357-359 | Behind a name only a colon is taken |
| JsonRecords.EscapeNamesCode | tools/logmefmt/main.cpp:230-242 | The escape of a control character without a short one names its code in two upper-case hexadecimal digits |
| JsonRecords.ReadsEscapeOf | tools/logmefmt/main.cpp:286-310 | Each escape stands for its character, and an unknown one for itself |
| JsonRecords.FormatJsonRecord | tools/logmefmt/main.cpp:586-604 | Prints the record the round trip speaks of |
| JsonRecords.ParseJsonRecord | tools/logmefmt/main.cpp:332-389 | Parses as the round trip's parser does, on every text |
| JsonRecords.ReadJsonString | tools/logmefmt/main.cpp:264-314 | Reads one string, on every text |
| JsonRecords.AppendJsonEscaped | tools/logmefmt/main.cpp:215-246 | Appends the quoted and escaped value |
| JsonRecords.ReadsEscaped | tools/logmefmt/main.cpp:264-314 | Reading goes over an escaped text as a whole and gives what comes back of it |
| XmlRecords.UnescapeUndoesEscape | tools/logmefmt/main.cpp:401-409 | The five passes, ampersands last, undo the escaping of every text |
| XmlRecords.ReplacesKind | tools/logmefmt/main.cpp:391-399 | One pass undoes the escaping of one character and leaves the other entities |
| XmlRecords.XmlRoundTrip | tools/logmefmt/main.cpp:411-454 | A record comes back exactly when its names have no `>` or space and do not start with a slash |
| XmlRecords.LooseRecordIsRead | tools/logmefmt/main.cpp:411-454 | Attributes, text between fields, spaces around the record and anything behind its closing tag are passed over, and every field is read |
| XmlRecords.UnclosedFieldIsRefused | tools/logmefmt/main.cpp:443-446 | A field that is never closed makes its record unreadable, wherever it stands |
| XmlRecords.NeedsTags | tools/logmefmt/main.cpp:419-422 | What is read has a closing tag behind the end of its first tag |
| XmlRecords.PredefinedEntities | tools/logmefmt/main.cpp:248-262 | The five entities are those of section 4.6 of XML 1.0 |
| XmlRecords.FormatXmlRecord | tools/logmefmt/main.cpp:606-625 | Prints the record the round trip speaks of |
| XmlRecords.ParseXmlRecord | tools/logmefmt/main.cpp:411-454 | Parses as the round trip's parser does, on every text |
| XmlRecords.ReplaceAll | tools/logmefmt/main.cpp:391-399 | Replaces every occurrence from left to right, never inside a replacement |
| XmlRecords.AppendXmlEscaped | tools/logmefmt/main.cpp:248-262 | Appends the escaped value |
| LogRecords.Trim | tools/logmefmt/main.cpp:189-200 | Drops the spaces at both ends |
| LogRecords.TrimsSpaces | tools/logmefmt/main.cpp:189-200 | Takes exactly the spaces off both ends |
| LogRecords.SpacesOfC | tools/logmefmt/main.cpp:189-200 | The spaces are those of isspace in the C locale |
| ChaCha20.ChaCha20Block | tools/logmeobf/main.cpp:106-152 | The in-place rounds compute the block function |
| ChaCha20.DoubleRoundMeans | tools/logmeobf/main.cpp:137-148 | One more double round makes a quarter round of each column and then of each diagonal of the state, as section 2.3 of RFC 8439 has it |
| ChaCha20.QuarterVector | tools/logmeobf/main.cpp:82-104 | A quarter round of the words of section 2.1.1 of RFC 8439 gives the words given there |
| ChaCha20.InitialStateLayout | tools/logmeobf/main.cpp:116-133 | Constants, key, counter and nonce stand where section 2.3 of RFC 8439 puts them |
| ChaCha20.ConstantsSpell | tools/logmeobf/main.cpp:116-119 | The constants spell "expand 32-byte k" |
| ChaCha20.BlockWords | tools/logmeobf/main.cpp:150-151 | The block is the sixteen words after ten double rounds, each added to the initial one |
| ChaCha20.SerializedWord | tools/logmeobf/main.cpp:150-151 | Each word stands in the block in four bytes, at its place |
| ChaCha20.TenDoubleRounds | logme/source/Obfuscate.cpp:153-164 | The loop over the work array is ten double rounds |
| ChaCha20.ChaCha20Xor | tools/logmeobf/main.cpp:154-179 | Block by block, the input is masked byte for byte with the key stream |
| ChaCha20.MaskUndoesMask | tools/logmeobf/main.cpp:154-179 | Masking twice with one key stream gives the input back, for every block function |
| ChaCha20.XorBits | tools/logmeobf/main.cpp:170-171 | A bit of a masked byte is set exactly where text and key stream differ |
| ChaCha20.PositionsDiffer | tools/logmeobf/main.cpp:154-179 | No byte of the key stream is used twice for texts up to 2^38 bytes, whatever counter they begin at, and the byte behind them is the first again |
| ChaCha20.LoadOfStore | tools/logmeobf/main.cpp:18-51 | A number that fits is read back from its little-endian bytes |
| ChaCha20.StoreOfLoad | tools/logmeobf/main.cpp:18-51 | Bytes are restored from the number they are read as |
| ChaCha20.LoadFour | tools/logmeobf/main.cpp:18-51 | The lowest byte comes first |
| TextRecords.SplitLinesKeepEol | tools/logmeobf/main.cpp:681-700 | The lines are the text in order, each ending with its only newline, the last one perhaps without |
| TextRecords.RecordsPartition | tools/logmeobf/main.cpp:804-850 | Grouping lines into records loses and reorders nothing and leaves no record empty |
| TextRecords.BuildTextRecords | tools/logmeobf/main.cpp:822-849 | A line begins a record exactly when it looks like a start or none did before |
| TextRecords.RecordFromStart | tools/logmeobf/main.cpp:822-849 | From a start on, the lines up to the next start are one record |
| TextRecords.LinesBeforeStart | tools/logmeobf/main.cpp:836-840 | Lines in front of the first start are records of their own |
| TextRecords.StartsMean | tools/logmeobf/main.cpp:729-772 | A start is a date and time to the millisecond in their places, or a level letter and a space |
| TextRecords.BuildRecords | tools/logmeobf/main.cpp:804-850 | The same for every format; the records are the text in order |
| ObfuscatedRecords.NonceGen.Next | tools/logmeobf/main.cpp:64-75 | The nonce of the counter, which then counts on in 64 bits |
| ObfuscatedRecords.RecordNoncesDiffer | tools/logmeobf/main.cpp:64-75 | No two of the first 2^64 records of a stream share a nonce |
| ObfuscatedRecords.NonceReadsBack | tools/logmeobf/main.cpp:64-75 | A nonce is the salt in four bytes and the counter in eight |
| ObfuscatedRecords.StreamNonces | tools/logmeobf/main.cpp:911-947 | The i-th record of a stream carries the nonce of number i, and no two of the first 2^64 records carry the same |
| ObfuscatedRecords.OpenedUndoesFramed | tools/logmeobf/main.cpp:189-263 | A framed record is read back whatever follows it, and shows where it ends |
| ObfuscatedRecords.OpenedOnlyFramed | tools/logmeobf/main.cpp:227-263 | Only a framed record is opened, as the text that was framed |
| ObfuscatedRecords.FramedByBytes | tools/logmeobf/main.cpp:189-225 | Signature, length and nonce byte by byte, and each byte of the text masked with its own byte of the key stream from block 1 on |
| ObfuscatedRecords.LocalObfEncryptRecord | tools/logmeobf/main.cpp:189-225 | Fails exactly when the text is over 65535 bytes or the room too small, using no nonce; otherwise frames it |
| ObfuscatedRecords.LocalObfDecryptRecord | tools/logmeobf/main.cpp:227-263 | Opens a record, or fails exactly when it is cut short, unsigned or too long for the room |
| ObfuscatedRecords.TextComesBack | tools/logmeobf/main.cpp:911-1019 | Reading the stream of any records that fit gives their text back |
| ObfuscatedRecords.ReadsSealed | tools/logmeobf/main.cpp:954-1019 | Every sequence of framed records is read, with whatever nonces |
| ObfuscatedRecords.ReadsOnlySealed | tools/logmeobf/main.cpp:954-1019 | And nothing else is: what is read is a sequence of framed records to its last byte |
| ObfuscatedRecords.RunObfuscate | tools/logmeobf/main.cpp:911-947 | Succeeds exactly when every record fits, and then the stream reads back as the whole text |
| ObfuscatedRecords.RunDeobfuscate | tools/logmeobf/main.cpp:954-1019 | Reads every input as the specification does, with its failures |
| Collapse.CollapseContextCache.ApplyCollapse | logme/source/Context.cpp:408-470 | One message, in both modes, with the wrapping of 64-bit numbers |
| Collapse.CountRun | logme/source/Context.cpp:440-457 | With r repeats pending and n more, (r + n) / L are shown, each reporting L, and (r + n) mod L stay pending |
| Collapse.CountRunEnds | logme/source/Context.cpp:440-457 | When another key comes exactly (r + n) mod L of the repeats have never been reported, and nothing of the run is left to report them |
| Collapse.FirstMessageShown | logme/source/Context.cpp:440-469 | Exactly when the first message of a call site is shown |
| Collapse.OffShowsAll | logme/source/Context.cpp:416-420 | With a limit or an interval of 0 every message is shown, none reports a repeat and nothing is remembered |
| Collapse.TimeRunConserves | logme/source/Context.cpp:440-469 | Whatever the clock does, the repeats held back are those reported and those pending |
| Collapse.TimeRunEnds | logme/source/Context.cpp:440-469 | When another key comes the repeats since the last one shown are never reported; none is lost exactly when the run ends with a shown one |
| Collapse.TimeRunSpaced | logme/source/Context.cpp:440-469 | With a clock that does not go back, shown messages are the interval apart and none is held back longer |
| Collapse.ClockSetBackShows | logme/source/Context.cpp:459-464 | Exactly when a clock set back shows the next repeat at once |
| BufferBackends.BufferBackend.Append | logme/source/Backend/BufferBackend.cpp:80-142 | The text after every message and policy; it stays a suffix of what was accepted, NUL-terminated and within the limit |
| BufferBackends.BufferBackend.MakeRoom | logme/source/Backend/BufferBackend.cpp:104-121 | The loop ends and drops whole lines, or everything, until the message fits |
| BufferBackends.EvictedIsBest | logme/source/Backend/BufferBackend.cpp:104-121 | What is kept is the longest suffix that fits and begins a line |
| BufferBackends.StopKeepsText | logme/source/Backend/BufferBackend.cpp:80-142 | STOP_APPENDING keeps all it has: a message goes in behind it exactly when it fits |
| BufferBackends.DeleteOldestTakesWhatFits | logme/source/Backend/BufferBackend.cpp:80-142 | DELETE_OLDEST takes every message that fits an empty buffer, and gives up for it the fewest of the oldest lines |

## Left out

- Weak memory orders, fairness and progress: the protocols are proved safe under sequential consistency.
- File and console output, renaming, compression and retention: writing a batch is one step, whatever its outcome.
- The pressure test of AppendOutputData, and whether a pool has a buffer for Flush: nondeterministic choices in the flush protocol, deterministic in `BufferQueues`.
- Other backends in the manager's list: they may notify the management thread, and it may turn to them, at any point; their own state is not modelled.
- Shutdown, freezing a file backend (which takes its registration back), stopping the file manager, switching a backend between modes, and the global shutdown flag outside `Channels` and `SubsystemLevels`.
- The cache of data buffers shared by backends and the memory trackers: a buffer is free, created or gone.
- BufferQueues.BufferQueue.Append: buffers are values here, because each is owned by one `unique_ptr`; `DataBuffers.DataBuffer` models the copying into the array.
- `PrepareSoftFlushCurrent` and `PublishCurrentIfMatches`: not called by the pipeline.
- Backend statistics, runtime statistics and the cached site of a call: totals are claimed for messages, not for which call site they are shown under.
- StatisticsTotals.Collector.Record: one call at a time; concurrent recorders of one call site are in `StatisticsProtocol`.
- StatisticsProtocol.CountersExact: one call site; making the site under the collector's lock is not a step of the protocol.
- Channels.Channel.Display: backends are called but do nothing here that could log again; an arbitrary guard stack stands for a call from inside another one. Access counts and the change of the context for a linked channel are not modelled.
- Channels.Channel.AddLinkByName: a name without a channel makes a new empty channel on first use; nothing is delivered there, and its creation is not modelled.
- TracePoints.TracePointMatch: letters outside ASCII keep their case.
- FastFormats.ThreadCache.FormatMessage: the fallback to `vsnprintf` for unsupported formats and the shortcut for the bare `%s` format.
- TextRecords.BuildRecords: the format found by counting the first lines is a parameter; the results hold for either.
- ObfuscatedRecords.RunDeobfuscate: a record of length 0 at the start of a stream, which the tool never writes, depends there on the data pointer of an empty vector.
- Keys, Base64, salts from the clock and reading or writing files of `logmeobf`.
- Text records, field renaming and documents of `logmefmt`.
- The pattern that normalises a collapse key: the key is a parameter.
- BufferBackends.BufferBackend.Append: the capacity of the vector and its memory tracking; the configuration is fixed.
- Colours, time stamps, thread names, configuration, control commands and the macros.
