# Order books rebuilt from a replayable log

The system captures depth, trades and status from exchanges, publishes them to a log, and
derives books and quotes from that log again and again: in the gateway while it runs, in the
gateway after a restart, and offline in the silver and gold layers. Everything it promises is
a statement about replay. This project models those derivations and proves the promises over
every input, every interleaving and every run.

The theory they share is small (`Levels.dfy`): one side of a book maps an exact price to an
entry, a change sets or deletes an entry, a snapshot is a list of changes read onto an empty
side and a delta a list read onto the current one. Prices are the exact rational values of
their decimal tokens; `Decimal.dfy` proves that the gateway's digit-by-digit comparison is the
order of those values.

## The parts

**Gateway book reconstruction** — `Decimal`, `Levels`, `Stream`, `Heal`, `Convergence`,
`Overflow`, `Straggler`, `WarmStart`, `Aggregator`. `Stream.Step` reads one message of a
stream: connection epochs, the pre-snapshot buffer, the sequence guard, the crossed-book heal
with its bounded replay tail. The classes in `Aggregator.dfy` are proved to take exactly that
step. Over runs: a heal loses nothing it does not count, every interleaving of the two topics
converges, and a warm restart planned by `WarmStart.Plan` rebuilds the book of a full replay.
Where the buffer's and the restart's comments promise too much, the exact conditions are proved.

**Ingest synchronisation** — `Venue`, `OrderBook`, `Journal`, `DepthSync`, `Kraken`,
`Progress`, `Ingesters`, `Numeric`. A venue is its true history by update id; deliveries may be dropped,
repeated or reordered. A live spot or futures symbol never hides a gap, what every driver
publishes reads back to its own book and is never locked, and the gateway theorems apply to
what is published, so the two halves compose (`Numeric.GatewayKeepsBinanceBook`, `GatewayKeepsKrakenBook`).
`Progress.dfy` proves the other half: on events that follow each other a connection goes live,
stays live and ends at the last one, and it says exactly when not. The classes in
`Ingesters.dfy` refine the pure drivers.

**Gateway output** — `Names`, `Nbbo`, `Server`, `Batcher`. The best bid and offer across
venues, the stream clock and eviction, the output gate, and the batching queue, each as a
state machine with an invariant over all runs and a class that takes its steps. What the
gateway has sent is also told by its input log alone (`Server.WireTellsBest`, `Server.RunQuotes`).

**Offline path against its oracle** — `AsOf`, `Merge`, `NbboStream`, `FoldOrder`,
`SilverBook`, `Scorecard`. The windowed re-sort, the k-way merge, the two order guards of the
book fold and the table-by-table scorecard equal their in-memory references. The fold also
ends with the book the gateway reconstructs from the same topics, and with the driver's own
(`SilverBook.SilverKeepsBinanceBook`, `SilverKeepsKrakenBook`).

**Crash recovery of the bronze writer** — `Materializer`. Deaths before a PUT, between a PUT
and its commit and between steps, with revocations, leave every committed record in exactly
one object, in order.

Where the source updates state in place the model is a class whose methods are proved equal,
field by field, to a step function; the theorems are lemmas about runs of that function.

## Where the code and its own comments differ

The model follows the code. Six comments promise more than the code does; each has the
condition under which the promise holds.

- The buffer comment (`node/gateway/src/aggregator.ts:12-14`) says that shedding the oldest deltas never gaps
  the book. `Overflow.OverflowLosesIff` gives the condition, on deltas of every connection,
  which share the buffer; `Overflow.OverflowLosesLevel` is a log that loses a level.
- The seek comment (`node/gateway/src/server.ts:396-398`) says that messages consumed before the seeks land are
  harmless. `Straggler.EarlyIsHarmlessIff` gives the condition under which exactly the replayed
  deltas are applied, for every interleaving, early snapshots included; then the book is the
  clean one (`Straggler.HarmlessIsClean`), and `Straggler.FailureCosts` says what its failure
  costs. `Straggler.EarlyDeltaMasks` and `Straggler.EarlySnapshotMasks` are restarts that lose
  a level. `WarmStart.PlannedRestartIsFullReplay` therefore starts at the
  seeks.
- The re-sort (`python/common/asof.py:82-83`) is described as strictly ascending. It is exactly when no two
  events share a time (`AsOf.StrictlyAscendingIff`); `AsOf.EqualTimesStayEqual` is an input.
  Its watermark starts at 0, which matters for negative times only.
- The fold (`python/silver/dq.py:348-349`) is described as resynchronising from the next snapshot. It does
  (`SilverBook.ShownFromSnapshot`), but until then it is silent exactly when every delta
  crosses itself (`SilverBook.SilentUntilSnapshotIff`); `SilverBook.ClearedBookShowsDelta` is a
  fold that is not.
- The fold's module comment (`python/silver/dq.py:37-38`) says that falling sequences are caught by the
  `non_monotonic_seq` flag. That flag fires exactly on a delta numbered below -1 that meets an
  empty book (`SilverBook.BehindIff`), so on records numbered from 0 never: a sequence that
  falls makes the order guard raise (`SilverBook.NeverBehind`).
- The accumulator (`python/gold/scorecard.py:244-248`) is described as the same checks as the oracle; two null
  best prices count as locked in one and not in the other, and an empty invariant kind as
  flagged in one and not in the other. `Scorecard.AccumulatorIsOracle` says exactly when the
  reports agree, `Scorecard.FoldRowsAgreeIff` when they do on rows the fold writes, and
  `Scorecard.NullPricesDiffer` is a fold on which they do not.

The Kraken snapshot is published as received and trimmed locally, so it shows the driver's
book exactly when it is no deeper than the subscribed depth (`Kraken.SnapshotStandsIff`); the
theorems about that driver assume a venue that sends no deeper one (`Kraken.Modest`).

## Assumptions

- Convergence speaks of a faithful log: snapshot sequences do not fall within a connection,
  each re-snapshot shows the state published as of its sequence, and no needed delta is shed
  nor a heal underrun (`Convergence.Quiet`, implied by the log's length in
  `Convergence.WithinCaps`). The ingest theorems prove the first two of what is published, and
  that it is never locked, so no heal can underrun; what they still assume is that the full
  buffer sheds none of the connection's deltas (`Convergence.Spared`).
- The straggler theorems assume that snapshot epochs and sequences do not fall on their topic
  and that no needed delta is shed (`Straggler.Restart`); the book itself also that no heal
  underran.
- Depth sync assumes that whatever is delivered is a true event or a true snapshot of the
  venue (`DepthSync.Honest`); what is delivered, when and how often is arbitrary.
- `Kraken.GatewayRebuildsDriver` assumes one in-band snapshot per connection
  (`Kraken.OncePerConnection`); `Kraken.SecondSnapshotIsSkipped` shows what a second one does.
- `WarmStart.PlannedRestartIsFullReplay` assumes that the newest snapshot at planning time, and
  the one the book is rebuilt from, lie inside the lookback, and that a delta the latter lacks
  was stamped no earlier than it (`WarmStart.Asked`).
- The end-to-end theorems of the fold assume that what is stored of each topic is what was
  published, in order, at rising offsets (`SilverBook.Stores`).
- `Materializer.ExactlyOnce` assumes gap-free offsets and that no other partition resolves to
  the same place; `Materializer.SharedPlaceLoses` shows that the second is needed.

## Model

| member | source | states |
|---|---|---|
| `Decimal.ToPlainPreservesValue` | node/gateway/src/decimal.ts:28-41 | expanding an exponent token to plain digits keeps its rational value, for any well-formed non-negative token of any length |
| `Decimal.PlainIsDigits` | node/gateway/src/decimal.ts:8-24 | the value of a token without exponent is its digits over ten to the number of fraction digits |
| `Decimal.ExponentShifts` | node/gateway/src/decimal.ts:28-41 | a negative exponent divides the mantissa by that power of ten, any other multiplies it |
| `Decimal.ExponentSign` | node/gateway/src/decimal.ts:28-41 | an exponent spelled with a minus sign is negative, with a plus sign or none it is not |
| `Decimal.CmpAgrees` | node/gateway/src/decimal.ts:8-24 | the digit comparison is negative, zero or positive exactly as the two rational values compare, exponent forms included |
| `Decimal.CmpIsPreorder` | node/gateway/src/decimal.ts:8-24 | so it is a total preorder: reflexive up to value, antisymmetric in sign, transitive |
| `Levels.PutAllAt` | node/gateway/src/book.ts:52-59 | a list of level changes leaves at a named price what its last change there says, deletion included |
| `Aggregator.DeltaDecides` | node/gateway/src/book.ts:50-62 | the last wire level of a delta naming a price decides it: a size of zero, however spelled, deletes the level, any other is held as it came |
| `Levels.ListedAt` | node/gateway/src/book.ts:38-47 | a snapshot lists a price exactly when some level gives it a size, and then as the last one to do so says |
| `Levels.CrossedMeans` | node/gateway/src/book.ts:76-80 | the crossed flag holds exactly when some ask lies strictly below some bid |
| `Aggregator.Book.ApplySnapshot` | node/gateway/src/book.ts:38-47 | a same-epoch snapshot the uncrossed book has passed changes nothing; any other replaces levels, sequence and epoch, passing over zero sizes |
| `Aggregator.Book.ApplyDelta` | node/gateway/src/book.ts:50-62 | a delta at or below the book's sequence changes nothing; any other applies its levels in order and moves the sequence |
| `Aggregator.Book.BestBid` | node/gateway/src/book.ts:64-67 | none exactly when there is no bid, else the entry at a price no other bid beats; `Aggregator.BestIsTop` makes it unique |
| `Aggregator.Book.BestAsk` | node/gateway/src/book.ts:69-72 | none exactly when there is no ask, else the entry at a price no other ask beats |
| `Aggregator.Book.IsCrossed` | node/gateway/src/book.ts:76-80 | true exactly when the book's best ask lies below its best bid |
| `Aggregator.Aggregator.RecordApplied` | node/gateway/src/aggregator.ts:72-83 | the applied tail sheds its older half at the cap and remembers the newest entry shed; no other stream changes |
| `Aggregator.Aggregator.DeriveBbo` | node/gateway/src/aggregator.ts:190-229 | a quote holds the book's best bid and best ask under the stream's key and the message's stamps; none comes out exactly when a side is empty or the stream's last quote already shows both; a crossed book is counted |
| `Aggregator.Aggregator.ApplyBook` | node/gateway/src/aggregator.ts:85-182 | the mutable maps take exactly the stream step of the message's (exchange, symbol), every other stream is untouched; a quote announces the new best bid and ask with the stamps of the message that brought the book to its sequence; each counter counts the stale, healing, replayed, underrun or crossed step it is named for |
| `Aggregator.EmittedAnnounces` | node/gateway/src/aggregator.ts:190-226 | the quote rule in terms of the book: nothing is said exactly when a side is empty or the last quote shows the best bid and the best ask, and what is said shows them |
| `Stream.StepLast` | node/gateway/src/aggregator.ts:134-181 | a step that moves nothing leaves the book; any other names the message that brought the book to its sequence and epoch: the one at hand, or one read back from the tail or the buffer |
| `Stream.DrainAdvances` | node/gateway/src/aggregator.ts:166-180 | whatever the arrival order, what a drain applies is an increasing run of that epoch's deltas above the book, and the book is its start with that run applied |
| `Stream.DrainRetains` | node/gateway/src/aggregator.ts:168-180 | deltas of other epochs stay buffered, none of the drained epoch does, and the buffer does not grow |
| `Stream.DrainKeepsTail` | node/gateway/src/aggregator.ts:174-177 | what a drain applies is recorded behind whatever the tail already stood for: it is still the newest part of all of it |
| `Stream.PruneKeepsTail` | node/gateway/src/aggregator.ts:153-165 | pruning the tail to a snapshot keeps exactly its part above, and the underrun test fires exactly when a delta above the snapshot is no longer retained |
| `Stream.OpeningStep` | node/gateway/src/aggregator.ts:116-182 | a snapshot of a new epoch discards the old tail and drains only its own epoch |
| `Stream.LaterStep` | node/gateway/src/aggregator.ts:124-182 | an accepted snapshot of the book's epoch is rebuilt from the retained deltas above it, which are also what the replay depth counts |
| `Heal.RunConsistent` | node/gateway/src/aggregator.ts:72-182 | in every run whose snapshot sequences do not fall within an epoch: the book is the last accepted snapshot with what was applied above it, the tail the newest of that, both buffers within their caps |
| `Heal.HealIsLosslessUnlessCounted` | node/gateway/src/aggregator.ts:124-165 | an accepted rewind leaves the snapshot with every delta applied above it and the book at the place it stood; the underrun is counted exactly when such a delta had been evicted |
| `Convergence.RunReconstructs` | node/gateway/src/aggregator.ts:85-182 | any interleaving of a faithful log's two topics ends with the last connection's first snapshot followed by all its later deltas |
| `Convergence.Convergence` | node/gateway/src/aggregator.ts:36-50 | two interleavings of the same two topics end with equal levels, sequence and epoch |
| `Convergence.UncrossedReconstructs` | node/gateway/src/aggregator.ts:85-182 | where no published state is crossed no heal can underrun: sparing the buffered deltas is all that reconstruction needs |
| `Convergence.WithinCaps` | node/gateway/src/aggregator.ts:94-96 | a log no longer than the caps never sheds a needed delta and never underruns |
| `Convergence.ConvergenceWithinCaps` | node/gateway/src/aggregator.ts:85-182 | convergence from a bound on the log's length alone |
| `Convergence.SuffixSuffices` | node/gateway/src/warmstart.ts:8-16 | the snapshots from any point on, with a delta suffix that covers the first of them that counts, are a faithful log and reconstruct the same book |
| `Convergence.NewestSuffices` | node/gateway/src/warmstart.ts:8-16 | the newest snapshot with a covering delta suffix is itself a faithful log and reconstructs the same book |
| `Convergence.WarmRestart` | node/gateway/src/warmstart.ts:1-21 | an empty stream fed the snapshots from any point on and a covering delta suffix, in any interleaving, ends with the book of a full replay |
| `Overflow.DrainIsWholeIff` | node/gateway/src/aggregator.ts:94-97 | whatever other connections' messages the stream consumed meanwhile, the first snapshot of a connection applies every consumed delta it lacks if and only if none of them was shed |
| `Overflow.OverflowLosesIff` | node/gateway/src/aggregator.ts:12-15 | for a backlog of deltas of any connections: if and only if no more deltas than the buffer holds, of whatever connection, arrived from the first one the snapshot lacks on |
| `Overflow.OverflowLosesLevel` | node/gateway/src/aggregator.ts:94-97 | a log whose shed delta carried a bid the reconstructed book lacks, pushed out by deltas of its own connection or of any other, against the comment on the buffer |
| `Straggler.RestartedBook` | node/gateway/src/server.ts:394-403 | however the topics interleave, snapshots consumed early included: when the newest snapshot is accepted or finds just its own state, the book is that snapshot with, in arrival order, each delta above the ones taken before |
| `Straggler.EarlyIsHarmlessIff` | node/gateway/src/server.ts:396-398 | the stream rests on what the newest snapshot shows, and what is applied above it is exactly the replayed deltas above it, if and only if that snapshot is accepted or finds just its own state, and what is taken of the early deltas above it are the first of the replayed ones |
| `Straggler.HarmlessBook` | node/gateway/src/server.ts:396-398 | under that condition, and unless a heal underran, the restarted book is the newest snapshot with every replayed delta above it |
| `Straggler.HarmlessIsClean` | node/gateway/src/server.ts:396-398 | so it is the book of a restart that consumed nothing early, however either restart interleaves its topics |
| `Straggler.FailureCosts` | node/gateway/src/server.ts:396-398 | where the condition fails, the stream rests on another ground than the newest snapshot, or some replayed delta above it is never applied, or some early delta above it is applied that the replay does not bring |
| `Straggler.FirstStands` | node/gateway/src/aggregator.ts:116-123 | with no early snapshot of its connection the newest snapshot is always accepted, so that condition is one on the deltas alone |
| `Straggler.EarlyDeltaMasks` | node/gateway/src/server.ts:396-398 | a restart whose early delta masks a lower one and loses its bid, against the comment that the prefix is harmless |
| `Straggler.EarlySnapshotMasks` | node/gateway/src/server.ts:396-398 | a restart whose early snapshot and delta stand past the newest snapshot, which is skipped together with its bid |
| `Straggler.MaskedIdleDoesNotShow` | node/gateway/src/server.ts:396-398 | the condition is about what is applied: a restart on which it fails and the book is the clean one all the same, the masked delta carrying no change |
| `WarmStart.PlanWarmStart` | node/gateway/src/warmstart.ts:69-122 | every partition of every md.status, md.trades and md.book (.snapshots or .deltas) topic has the seek that its topic's name asks for, and there is no other |
| `WarmStart.PlanTopic` | node/gateway/src/warmstart.ts:91-119 | by the name of the topic: deltas start at the first offset inside the lookback and snapshots at the newest, both gated to the end; trades start at the live edge; status starts at the first offset inside the lookback, ungated; with nothing recent every topic starts at the live edge |
| `WarmStart.PlanByName` | node/gateway/src/warmstart.ts:34-43 | the planned seeks, for any topics and any answers of the broker, are those the names ask for |
| `WarmStart.SeekCoversLookback` | node/gateway/src/warmstart.ts:98-110 | a delta or status seek skips no record inside the lookback and reads none before it |
| `WarmStart.SnapshotSeekIsNewest` | node/gateway/src/warmstart.ts:98-110 | a snapshot topic is sought at its newest record if any lies inside the lookback, else at its end |
| `WarmStart.PlanGates` | node/gateway/src/warmstart.ts:113-117 | every gated seek is of a book topic and starts at or below its target |
| `WarmStart.SeekCoversSnapshot` | node/gateway/src/warmstart.ts:11-14 | the delta seek covers every delta that a snapshot inside the lookback lacks, over a log that has grown since it was planned |
| `WarmStart.PlannedRestartIsFullReplay` | node/gateway/src/warmstart.ts:69-122 | a restart from the two seeks planned for a stream's snapshot and delta topics, consuming in any interleaving and reading on through later re-snapshots and connections, has the book of a full replay |
| `WarmStart.PendingUntilDrained` | node/gateway/src/warmstart.ts:162-169 | a partition holds the gate exactly until an offset at or below its target and then one at or above it were seen |
| `WarmStart.OpensExactlyWhenDrained` | node/gateway/src/warmstart.ts:160-170 | the gate opens on exactly the message that drains the last partition the seeks gate, to the target of its last gated seek |
| `WarmStart.OpensAtMostOnce` | node/gateway/src/warmstart.ts:160-170 | over any sequence of observed offsets it opens at most once |
| `WarmStart.StragglersHold` | node/gateway/src/warmstart.ts:131-134 | offsets past the target never release a partition whose replay has not begun |
| `WarmStart.DrainGate.constructor` | node/gateway/src/warmstart.ts:144-153 | arms one entry for each gated seek, the last one of a partition deciding |
| `WarmStart.DrainGate.Record` | node/gateway/src/warmstart.ts:162-170 | the mutable map takes exactly the observation step, and the result says whether this message opened the gate |
| `OrderBook.TrimKeepsBest` | python/ingest/book.py:143-161 | trimming keeps exactly the best levels of each side up to the depth, with their sizes, all better than any dropped |
| `OrderBook.TrimIsIdleIff` | python/ingest/book.py:157-160 | trimming changes nothing exactly when neither side is deeper than the depth |
| `OrderBook.OrderBook.ApplySnapshot` | python/ingest/book.py:83-108 | a crossed or locked snapshot is refused and nothing is committed; any other replaces the book |
| `OrderBook.OrderBook.ApplyDelta` | python/ingest/book.py:110-141 | a sequence at or below the book's is refused untouched; a locking delta is refused with its levels applied but not its sequence |
| `OrderBook.OrderBook.Trim` | python/ingest/book.py:143-161 | returns the evicted prices, worst first, and leaves the trimmed book |
| `OrderBook.OrderBook.Clear` | python/ingest/book.py:163-168 | empties the book and forgets its sequence |
| `Venue.EventCarries` | python/ingest/binance.py:263-292 | an event that truly covers an id range carries a book known true before the range to one known true at its end |
| `Journal.Advances` | python/ingest/base_ingester.py:373-401 | a published delta that leaves the book unlocked keeps the log reading back to the book it leaves, never locked on the way |
| `Journal.Reshows` | python/ingest/base_ingester.py:373-401 | a re-snapshot at the book's own sequence shows what the log already published as of that sequence |
| `Journal.ListThenBuild` | python/ingest/base_ingester.py:383-390 | listing a book best first and reading the list back gives the same book |
| `Journal.NewestEpochIsFaithful` | python/ingest/base_ingester.py:411-424 | a log whose newest epoch rebuilds a book is faithful as a whole, since epochs only rise |
| `Journal.InterleavingRebuilds` | node/gateway/src/aggregator.ts:85-182 | a gateway reading such a log's topics in any order ends with that book, unless its full buffer sheds a delta of the newest connection; the length of the log does not matter |
| `DepthSync.NeverHidesAGap` | python/ingest/binance.py:192-292 | however deliveries of true venue events are dropped, repeated or reordered, a live spot or futures symbol agrees with the venue's true state at its last id on every price its snapshot covered or an applied event named |
| `DepthSync.TakenSkipsNothing` | python/ingest/binance_futures.py:460-481 | no update of the book lies between the last id applied and the first id of an event either chain accepts |
| `DepthSync.PublishesFaithfully` | python/ingest/binance.py:231-292 | what a live symbol published in its epoch reads back to its book, and every re-snapshot shows the state as of its sequence |
| `DepthSync.GatewayRebuildsDriver` | python/ingest/binance.py:231-292 | the gateway, reading its topics in any order, ends with the driver's own book, over logs of any length, unless its full buffer sheds a delta of the driver's connection |
| `Progress.LiveStep` | python/ingest/binance.py:263-292 | on every run of a live symbol: an event already covered changes nothing; an id gap raises a resync and changes nothing else; any other event that leaves the book unlocked is read in and published, and the symbol stands at its last id |
| `Progress.ConnectionSyncs` | python/ingest/binance.py:202-292 | for a new connection after any run, with any events before and after its snapshot that follow each other by id: it is live at the end exactly when the snapshot is not locked, the first event to reach it meets it and no event locks the book; it then stands at the last event, holding and having published all of it; otherwise it is stale |
| `Progress.BufferingStep` | python/ingest/binance.py:212-221 | before the snapshot an event is buffered, or raises a resync exactly when the buffer is full or the fetch has failed |
| `Progress.RetellShows` | python/ingest/base_ingester.py:373-401 | the timer publishes the whole book of a live symbol at its own sequence and changes nothing else |
| `Kraken.EvictionsRelayTrim` | python/ingest/kraken.py:282-296 | the published delta with its relayed deletions takes the published book to the trimmed one |
| `Kraken.SnapshotStandsIff` | python/ingest/kraken.py:252-274 | the published snapshot shows the trimmed book if and only if it is no deeper than the subscribed depth |
| `Kraken.PublishedIsTrimmedBook` | python/ingest/kraken.py:252-303 | at every live state what was published since the last in-band snapshot reads back to exactly the depth-limited book, and every re-snapshot shows that fold at its sequence |
| `Kraken.PublishesFaithfully` | python/ingest/kraken.py:252-303 | with one snapshot per connection, what a live driver published over all its connections is a faithful log that stands for its book |
| `Kraken.GatewayRebuildsDriver` | python/ingest/kraken.py:252-303 | with one snapshot per connection the gateway, reading its topics in any order, ends with the driver's trimmed book, unless its full buffer sheds a delta of the connection |
| `Kraken.SecondSnapshotIsSkipped` | python/ingest/kraken.py:252-262 | a second in-band snapshot on a live connection is skipped by the gateway, which then has the driver's book exactly when the old book stood at zero and was the same |
| `Progress.KrakenSyncs` | python/ingest/kraken.py:252-303 | after any run a new connection is live after its snapshot and any number of deltas exactly when every checksum matches and no book locks; it has then counted them all, and holds and has published the depth-limited book |
| `Progress.KrakenRetellShows` | python/ingest/base_ingester.py:373-401 | the timer publishes the whole depth-limited book at its own sequence and changes nothing else |
| `Ingesters.BinanceSymbol.ApplySpot` | python/ingest/binance.py:263-292 | the spot chain on the mutable context: an event at or below the last id changes nothing; a resync is raised exactly when the first event past the snapshot starts past the next id, or a later one anywhere but at it; any other is read in and published unless the book would lock |
| `Ingesters.BinanceSymbol.ApplyFutures` | python/ingest/binance_futures.py:460-497 | the futures chain: before the overlap an event that ended earlier changes nothing and one that starts past the snapshot raises a resync, after it exactly a wrong previous id does; any other is read in and published unless it does not advance the book or would lock it |
| `Ingesters.BinanceSymbol.ApplySnapshotAndDrain` | python/ingest/binance.py:231-261 | snapshot, what was buffered, and the event at hand, ended by the first event that cannot be taken |
| `Ingesters.BinanceSymbol.ProcessDelta` | python/ingest/binance.py:212-227 | the dispatch on the symbol's state, with buffer overflow and failed fetch raising a resync |
| `Ingesters.BinanceSymbol.Connect` | python/ingest/base_ingester.py:411-424 | a fresh connection clears the context and raises the epoch, whatever the clock says |
| `Ingesters.KrakenSymbol.ProcessSnapshot` | python/ingest/kraken.py:252-274 | the snapshot branch on the mutable context takes the model's step |
| `Ingesters.KrakenSymbol.ProcessDelta` | python/ingest/kraken.py:276-303 | the delta branch takes the model's step, checksum mismatch after the trim |
| `Ingesters.KrakenSymbol.Retell` | python/ingest/base_ingester.py:373-401 | the periodic re-snapshot publishes the whole book at its own sequence |
| `Numeric.GatewayKeepsBinanceBook` | python/ingest/base_ingester.py:373-401 | end to end: unless one of the connection's deltas is shed, the gateway's spelled book, read as numbers, is the driver's book |
| `Numeric.GatewayKeepsKrakenBook` | python/ingest/kraken.py:132-146 | end to end for the depth-limited book, with one snapshot per connection |
| `AsOf.StableSortIsStable` | python/silver/dq.py:651 | the sort is in time order and at every time has the input's events in input order |
| `AsOf.SortedIsDetermined` | python/common/asof.py:83-88 | those two facts determine a sequence |
| `AsOf.ReorderRaisesIff` | python/common/asof.py:90-103 | the re-sort raises exactly when some event is earlier than an event already more than the window behind the watermark; otherwise what is buffered is newer than the watermark less the window |
| `AsOf.ReorderIsStableSort` | python/common/asof.py:75-109 | without a raise the output is the stable sort of the input |
| `AsOf.WithinWindowNeverRaises` | python/common/asof.py:79-84 | if every event lies within the window of the watermark, nothing is raised |
| `AsOf.OutputIsSorted` | python/common/asof.py:99-109 | what is released is in time order, equal times included, even when a later event raises |
| `AsOf.StrictlyAscendingIff` | python/common/asof.py:79-83 | without a raise the output is strictly ascending if and only if no two events share a time |
| `AsOf.EqualTimesStayEqual` | python/common/asof.py:82-83 | two events at one time come out as they came in, so not strictly ascending, for every window |
| `AsOf.Reorder` | python/common/asof.py:75-109 | the generator's loop gives that output and that verdict |
| `Merge.MergeTwoIsSort` | python/silver/main.py:326-329 | merging two sorted streams, first one first on ties, is the stable sort of the one followed by the other |
| `Merge.MergeKeepsStreams` | python/common/asof.py:66-69 | the k-way merge loses, invents and reorders nothing within a key |
| `Merge.MergeSorts` | python/common/asof.py:66-69 | and is in time order |
| `Merge.MergeLatestIsAsOf` | python/common/asof.py:48-72 | one snapshot for each distinct time of any stream, strictly increasing, each holding every key's last value at or before it |
| `Merge.AsOfIsUnique` | python/common/asof.py:54-60 | there is one such sequence, so the order in which the streams are listed is immaterial |
| `Merge.NoLookahead` | python/common/asof.py:11-13 | cutting every stream at a time leaves every snapshot up to that time as it was |
| `Merge.MergeLatest` | python/common/asof.py:48-72 | the loop over runs of equal times gives the as-of sequence |
| `NbboStream.StreamedIsOracle` | python/silver/main.py:322-329 | unless a quote is too late, a venue's re-sorted quotes merged with its sorted down sentinels are the oracle's stable sort of quotes then sentinels |
| `NbboStream.BidWinner` | python/silver/dq.py:603 | the loop finds the highest bid, the greater name on a tie |
| `NbboStream.AskWinner` | python/silver/dq.py:604 | the loop finds the lowest ask, the lesser name on a tie |
| `NbboStream.IterNbbo` | python/silver/dq.py:578-614 | told by the streams: one row, in time order, for each time at which something happens and some venue's last event is a quote no older than allowed; the row counts those venues, names two of them with their prices, and none of them bids higher or asks lower |
| `NbboStream.RowsAreFresh` | python/silver/dq.py:593-614 | the same of any rows that the tick rule allows, for any as-of sequence of the streams |
| `NbboStream.FreshIsStanding` | python/silver/dq.py:638-652 | a venue's leg is fresh at a time exactly when its latest stored quote by then is young enough and no down has followed it |
| `NbboStream.RowTimesAdvance` | python/silver/main.py:334-336 | row times strictly increase, so the regression check never fires |
| `NbboStream.VenueOrderIsImmaterial` | python/silver/dq.py:593-595 | the rows do not depend on the order in which venues are listed |
| `NbboStream.StreamingNbboIsOracle` | python/silver/main.py:303-339 | unless some venue's quote is too late, every run of the streaming path writes the rows of every run of the in-memory oracle |
| `NbboStream.DownEvictsAtItsTick` | python/silver/main.py:327-328 | a venue that goes down is out of the tick at that very time, even if it quoted at the same time |
| `FoldOrder.MergeSortedIff` | python/silver/dq.py:270-280 | the merge of snapshots and deltas is in key order exactly when both streams are |
| `FoldOrder.SortKeepsArrivalIff` | python/silver/dq.py:213-215 | sorting a stream by the key keeps its arrival order exactly when it arrived in key order |
| `FoldOrder.FoldRaisesIff` | python/silver/dq.py:291-309 | the fold raises exactly when the merged records leave the key order or one kind's leave their offset order |
| `FoldOrder.GuardsAgree` | python/silver/dq.py:213-216 | for streams in offset order the sort-first and the arrival-order callers raise together, exactly when some stream is not in key order, and otherwise yield the same events |
| `FoldOrder.GapsAreWhatIsMissing` | python/silver/dq.py:315-322 | over a clean run of deltas from a contiguously numbered venue, the gaps are as many as the sequence numbers between the book's first and last that no delta carried, and every other number there moved the book once |
| `FoldOrder.FlagMeans` | python/silver/dq.py:324-336 | a snapshot or delta is flagged as crossing exactly when some bid of the book it asks for has reached some ask, and only a delta below the book is flagged as falling back |
| `FoldOrder.FoldOnto` | python/silver/dq.py:315-349 | one record on the mutable book: gap, skipped re-borrowed delta, invariant flag, and the book emptied after a broken invariant |
| `FoldOrder.FoldBook` | python/silver/dq.py:286-349 | the generator's events and its verdict are those of the fold |
| `SilverBook.ShownFromSnapshot` | python/silver/dq.py:267-349 | from an accepted snapshot of the connection on, and until an invariant breaks, the book is the published state at every record, whatever broke before |
| `SilverBook.EventShowsState` | python/silver/dq.py:324-347 | from an accepted snapshot on, and until an invariant breaks, every event yields the published state at its record |
| `SilverBook.FoldsOnto` | python/silver/dq.py:311-313 | each record is folded onto an empty book at the start, at a new connection and after a flagged record, else onto the book its predecessor left |
| `SilverBook.BehindIff` | python/silver/dq.py:291-336 | an event is flagged as a falling sequence exactly when its delta is numbered below -1 and meets an empty book |
| `SilverBook.NeverBehind` | python/silver/dq.py:291-336 | so no record numbered from 0 is ever flagged so, against the module comment: a sequence that falls within its connection makes the order guard raise |
| `SilverBook.SilverIsReconstructed` | python/silver/dq.py:267-349 | a fold that does not raise, and breaks no invariant from some snapshot of the last connection on, ends with that connection's first snapshot followed by all its later deltas |
| `SilverBook.SilverIsGateway` | node/gateway/src/aggregator.ts:85-182 | so it ends with the book every interleaving of the two topics gives the gateway |
| `SilverBook.NeverFlagged` | python/silver/dq.py:324-349 | over a faithful log none of whose states is locked, no record is flagged from the connection's first snapshot on |
| `SilverBook.SilverKeepsBinanceBook` | python/silver/dq.py:255-349 | end to end: the fold of what a live driver published does not raise, breaks no invariant from the connection's first snapshot on, and ends with the driver's own book |
| `SilverBook.SilverKeepsKrakenBook` | python/silver/dq.py:255-349 | end to end for the depth-limited book, with one snapshot per connection |
| `SilverBook.SilentUntilSnapshotIff` | python/silver/dq.py:348-349 | after a broken invariant every record up to the next snapshot is flagged if and only if each of its deltas crosses or locks itself on an empty book |
| `SilverBook.ClearedBookShowsDelta` | python/silver/dq.py:348-349 | a fold that shows, unflagged, a book of one bid while the venue still has an ask, against the comment that it resynchronises from the next snapshot |
| `Materializer.ExactlyOnce` | python/materializer/service.py:181-216 | after any run of appends, size, age and date flushes, revocations and deaths before a PUT or before its commit: the objects below the commit, in start order, are the committed log; any other object of the partition starts exactly at the commit and holds a run of the log; each holds one date |
| `Materializer.FlushesKeepExactlyOnce` | python/materializer/service.py:177-203 | the flushes of the age flush and of the final sweep, after any run, keep that; a partition with nothing buffered has every record it was handed in exactly one object |
| `Materializer.RunKeeps` | python/materializer/service.py:181-216 | in every run the buffer holds exactly the log between the commit and the position, all of one date |
| `Materializer.BuffersStaySmall` | python/materializer/service.py:190-193 | in every run no buffer reaches the size at which it must be flushed |
| `Materializer.SharedPlaceLoses` | python/materializer/bronze.py:159-182 | two partitions that resolve to one place: a run in which both first offsets are committed and the second object has replaced the first |
| `Materializer.PlacesApart` | python/materializer/bronze.py:159-182 | two partitions of one topic never share a place, nor do two topics whose symbols need no rewriting and have no canonical name |
| `Materializer.FlushCommitsAll` | python/materializer/service.py:177-179 | flushing a partition to the end commits everything it was handed |
| `Materializer.Materializer.FlushOne` | python/materializer/service.py:205-211 | pop, PUT under the start-offset key, commit, with a death before either |
| `Materializer.Materializer.Append` | python/materializer/service.py:181-193 | a record of a new date first flushes, a full buffer is flushed |
| `Materializer.Materializer.FlushDue` | python/materializer/service.py:195-203 | flushes buffers until one fails; if none does, exactly those younger than the interval remain |
| `Materializer.Materializer.FlushAll` | python/materializer/service.py:177-179 | if no flush fails, nothing stays buffered |
| `Materializer.Materializer.Revoke` | python/materializer/service.py:94-97 | a revoked partition loses its buffer and resumes from its commit |
| `Nbbo.BestBidWins` | node/gateway/src/nbbo.ts:91-98 | the walk over the sorted live venues ends at the venue best by exact price, then exact size, then name |
| `Nbbo.ComputeIsBest` | node/gateway/src/nbbo.ts:86-120 | both winners are live and best so, with their own levels and stamps, the crossed flag is exact, and the constituents are the live venues in order |
| `Nbbo.OneWinner` | node/gateway/src/nbbo.ts:122-135 | no other venue could be the winner, so the order in which legs arrived is immaterial |
| `Nbbo.OnBboKeeps` | node/gateway/src/nbbo.ts:40-52 | after a quote the remembered tuple is the winners' L1, absent exactly when no leg is live |
| `Nbbo.OnBboEmitsIff` | node/gateway/src/nbbo.ts:40-52 | a quote is sent on exactly when a leg is live after it and the winning L1 changed; what is sent is the best |
| `Nbbo.SetVenueDownKeeps` | node/gateway/src/nbbo.ts:57-74 | the same after a venue is taken out or let back in |
| `Nbbo.SetVenueDownSyncs` | node/gateway/src/nbbo.ts:57-74 | what is sent then is again the last word on every instrument with a live leg |
| `Nbbo.SetVenueDownNames` | node/gateway/src/nbbo.ts:57-74 | a venue taken out is named no longer by the last word on any instrument with a live leg |
| `Nbbo.SnapshotSyncs` | node/gateway/src/nbbo.ts:76-83 | sending the snapshot brings any wire into step with the quotes' state |
| `Nbbo.NbboAggregator.ComputeFor` | node/gateway/src/nbbo.ts:86-120 | the sorting and the single loop compute exactly that combination |
| `Nbbo.NbboAggregator.OnBBO` | node/gateway/src/nbbo.ts:40-52 | the mutable map takes exactly the model's step and returns what it sends |
| `Nbbo.NbboAggregator.MarkVenue` | node/gateway/src/nbbo.ts:57-74 | the sweep over the instruments takes exactly the model's step, and does nothing without a transition |
| `Server.DownExactlyWhenDead` | node/gateway/src/server.ts:309-350 | when a message is routed, the venues taken out are exactly those whose latest status is down or trails the stream clock by more than the timeout |
| `Server.ClockNeverFalls` | node/gateway/src/server.ts:342-343 | the stream clock never goes back |
| `Server.WireIsCurrent` | node/gateway/src/server.ts:282-295 | in every run, while output is not held, for every instrument the log has quoted: its legs are each venue's latest quote in the log; the remembered tuple is absent exactly when no leg is live, else it is the L1 of the current winners and of the last NBBO sent |
| `Server.RunHolds` | node/gateway/src/router.ts:33-37 | over every run an instrument is known exactly when the log quotes it, and each venue's leg is the last quote whose key names it |
| `Server.HeldUntilDrained` | node/gateway/src/server.ts:355-387 | output is held exactly from the arming until every partition that the planned seeks gate has drained |
| `Server.RunQuotes` | node/gateway/src/server.ts:355-372 | over every run the quotes sent are those consumed while output was not held, in order |
| `Server.WireTellsBest` | node/gateway/src/server.ts:309-382 | told by the log alone, over every run while output is not held: right after a message's evictions, and again when its own quote has been handled, the last NBBO of every instrument that a venue not dead has quoted holds the best bid and the best ask among those venues' latest quotes, and names no dead venue |
| `Server.QuoteNamesNoDeadVenue` | node/gateway/src/server.ts:340-350 | an NBBO sent for a quote names no dead venue, as winner or as constituent |
| `Server.HeldIsSilent` | node/gateway/src/server.ts:357-382 | nothing is sent while the gate holds |
| `Server.Gateway.EachMessage` | node/gateway/src/server.ts:325-391 | the closures take exactly one step of the runs that the theorems above are about: clock, eviction, status or routing, held output, the snapshot on opening |
| `Batcher.TakeConserves` | node/gateway/src/batcher.ts:92-109 | taking a batch loses, invents and reorders nothing within a topic |
| `Batcher.TakeFills` | node/gateway/src/batcher.ts:90-109 | a batch takes as much as fits the cap |
| `Batcher.RunSound` | node/gateway/src/batcher.ts:69-130 | over every run at most one send is in flight, no batch is over the cap, and a queued message has a send in flight or a flush scheduled |
| `Batcher.RunConserves` | node/gateway/src/batcher.ts:69-130 | over every run, per topic, the batches sent followed by the queue are what was enqueued, in order, whether sends succeed or fail |
| `Batcher.SettlesDrain` | node/gateway/src/batcher.ts:124-142 | with nothing more enqueued, each settle, of a send that succeeded or failed, sends the next batch until nothing is queued or in flight |
| `Batcher.EmitBatcher.EnqueueMessage` | node/gateway/src/batcher.ts:69-88 | the enqueue takes exactly the model's step and keeps the invariant |
| `Batcher.EmitBatcher.TakeBatch` | node/gateway/src/batcher.ts:92-109 | the loop with its splice takes exactly that batch |
| `Batcher.EmitBatcher.OnSettle` | node/gateway/src/batcher.ts:116-129 | a settle, well or badly, flushes what queued meanwhile |
| `Scorecard.ChunksDoNotMatter` | python/gold/scorecard.py:268-317 | however a partition's rows are split into tables, the accumulator ends the same, clock steps across a boundary included |
| `Scorecard.ColumnClockIsSteps` | python/gold/scorecard.py:303-317 | the counts over neighbouring entries of the two columns, and the greatest of the masked differences, are what the oracle's loop over the rows counts |
| `Scorecard.StepsAre` | python/gold/scorecard.py:75-112 | the clock check counts the neighbouring readings that go back, within an epoch and across epochs, and the worst drop within one |
| `Scorecard.ColumnsAreRows` | python/gold/scorecard.py:268-317 | folding a table by masks, filters and column sums adds to every counter what its rows add one by one |
| `Scorecard.AccumulatorIsOracle` | python/gold/scorecard.py:268-360 | records, gaps, coverage and clock always equal the whole-list oracle's; the whole report does exactly when no invariant kind is the empty string and no flagged crossed row has both best prices null |
| `Scorecard.LockedAgreesIff` | python/gold/scorecard.py:287-289 | the locked counts agree exactly when as many crossed rows with equal prices have the empty string as their kind as flagged crossed rows have both best prices null |
| `Scorecard.FoldRowsAgreeIff` | python/silver/dq.py:518-537 | on the rows the fold writes, however split, the accumulator's report is the oracle's if and only if no record crossed or locked a book that it left empty on both sides |
| `Scorecard.NullPricesDiffer` | python/gold/scorecard.py:287-289 | a fold whose one row, of a refused first snapshot, is locked to the oracle and not to the accumulator, against the comment that the checks are the same |
| `Scorecard.ClockMonotonicRow` | python/gold/scorecard.py:75-112 | the oracle's loop counts the backward steps within and across epochs and the worst of them |
| `Scorecard.BookCheckAccumulator.Update` | python/gold/scorecard.py:268-317 | one table, folded column by column into the mutable counters, adds what its rows add one by one |

## Left out

- B-trees, sorted dicts and heaps: a side is a map keyed by exact price, and a heap is the order in which it yields its entries.
- The stream key string "exchange symbol": modelled as the pair.
- Sequence numbers, offsets and times are unbounded integers: the precision of a JavaScript number above 2^53 and the float form of the millisecond stream clock are not modelled.
- Size tokens so small that `Number()` reads them as zero, and exponents beyond what `parseInt` reads exactly: a size is a removal exactly when its rational value is zero.
- The spelling `str(Decimal)` gives a re-snapshot's levels: `Numeric` compares books by value.
- The Kraken checksum: a mismatch is an input that demands a resync.
- Kafka, WebSocket, HTTP, S3 and Parquet calls and asyncio scheduling: steps that may come at any point; a failed REST fetch and a lost connection are inputs.
- The other symbols of a connection: a driver is modelled for one symbol, and a failure elsewhere is the loss of the connection.
- A rebalance while a PUT is in flight, for which the code names no single writer.
- A PUT that lands in part: an object is written whole or not at all.
- Topic names: `parse_topic` is taken as given, a partition carries its dataset, exchange and symbol.
- The NBBO's mid, spread, leg ages and crossed-depth counters, the offline basis, and the latency percentiles: floating point and display.
- Row shaping of the silver facts (depth sums, the top levels listed per quote, dates): the fold's event carries the whole book.
- `Scorecard.Oracle`: one partition; the grouping of a day's rows by key is not modelled, nor the latency and uptime checks.
- `NbboStream.StreamingNbboIsOracle`: one canonical instrument with one native symbol per venue; what a run wrote before a lateness error is not compared.
- `Server.Gateway.EachMessage`: takes the quote the aggregator derived and the instrument it maps to as inputs; decoding, trade relay, web-socket clients and yielding are not modelled, and the gate is armed once.
- `Batcher.RunConserves`: a settle callback that throws, and a producer that throws before returning a promise, are not modelled.
- `WarmStart.SeekCoversLookback`: the broker's answers are inputs, tied to the partition's timestamps; records removed by retention keep their place in that list.
- The cross-onset log, metric labels, and the order in which a web-socket client sees messages.
- `gold/budget.py`, schemas, exporter, dashboard, provisioning and the research package: lookup, rendering and plumbing that would add only easy members.
