# Verified model of the reconciliation engine

This project models the stateful core of a market-data reconciliation engine and proves what it
promises, over every input, every run and every reachable state. `dafny verify dfyconfig.toml` checks it.

## What is modelled

**Market-event feed over TCP** (`Framing`, `LinkModel`, `Transport`). `TCPTransport` keeps a byte
buffer that is extended, cut and cleared in place while it reads newline or length-prefixed frames, and
a retry loop that drops socket and buffer on every connection failure. A connection is what it delivers
before it ends; `Socket.Recv` may return any non-empty chunk, so the contracts hold for every chunking.
The class is proved against a parser that knows neither chunks nor buffers. About that parser: it undoes
the encoder and the encoder undoes it; over any run every complete frame is answered once and in order,
or was open when the caller closed; dials, sleeping time and buffer size are bounded.

**Vendor sequence tracking** (`SequenceTracker.dfy`). The deque, the count map and the running maximum of
each stream are proved to say what the stream's whole history says, for any interleaving of streams. On
histories a conservation law for gaps is proved with set cardinalities, and the exact condition under
which the reports alone give the number of lost events.

**Checkpointed ingestion and commit** (`Partitions`, `Recovery`, `CrashFree`, `RecoveryLaws`,
`Resumption`, `Ingestion`, `Schedules`, `HonestProviders`). One batch run is a step system: manifest
statements, provider calls, one archive file at a time, one transaction; workers interleave freely,
providers answer what they like, writes fail, and a crash may come between any two steps, any number of
times. An inductive invariant ties archives, manifest, memory and the committed run together. From it:
archives never change, once archived no payload is fetched again, SUCCESS is final, and a committed run is
the crash-free reconciliation of the first archived payloads. `Ingestion` has the same protocol as classes
and loops; `Schedules` shows that every interleaving of the workers ends as these loops do.

**Pairwise reconciliation and its other forms** (`Equities`, `Reconciliation`, `ProviderPairs`,
`DbtModel`, `ResultRows`, `Database`, `ServedResult`). The pandas joins and column overwrites, the dbt
models, the long table with the API's pivot, and the storing transaction. Each form is proved against the
others; `ServedResult` runs batch and tables as one system, whose commit step is the storing transaction,
and follows payloads through crashes to the rows that the API and the dbt fact serve. What a payload says
is also defined by its cells alone (`Equities.Says`) and what a comparison says by figures alone
(`Reconciliation.Judged`); the main results are stated in these terms.

**Two small companions** (`RateLimiter`, `AnomalyWindow`). The fixed-spacing request limiter with the
retry loop of the REST client, and the dashboard's pruned deque of anomaly times.

## Where the code differs from what one might expect

- A newline frame longer than the limit is refused without being consumed: every later `receive` repeats
  the refusal (`LinkModel.StalledForever`). After a refused length-prefixed frame the reader goes on inside
  its payload, which may be delivered as events (`Framing.ResumesAtBoundaryIff`,
  `Framing.OversizedPayloadIsReparsed`).
- `docs/NETWORK_TRANSPORTS.md:108` calls REORDERED an unseen sequence below the highest. In the code it can
  be a repeat that has left the window, and even the highest number itself
  (`VendorHistory.HighestCanBeReordered`). It is as documented if and only if every number of the history
  still occurs in the window (`VendorHistory.ReorderedAsDocumentedIff`). The model follows the code.
- The reports give the number of lost events exactly when no number above the first recurs after leaving
  the window (`VendorHistory.ReportsGiveMissingIff`): always up to `duplicate_window + 2` observations, not
  always beyond (`VendorHistory.WindowBoundIsSharp`).
- dbt trims symbols but does not upper-case them, Python does both. The two agree exactly when the stored
  symbols are already canonical (`DbtModel.AgreeIff`), which the batch guarantees
  (`ServedResult.RunFramesAreCanonical`).
- A malformed payload is archived before it is validated; from then on its run can never be committed
  (`RecoveryLaws.MalformedPayloadIsFinal`).
- A `Retry-After` header that is not a number ends the call with an error instead of a retry
  (`RateLimiter.VerdictTells`).

## How values are represented

Bytes are integers below 256, text is a sequence of characters, prices and times are reals, missing values
are `None`, dates are day numbers, a raised error is an `Err`, a `false` or a `null` result. Vendor
sequence numbers are unbounded as in Python; the 4-byte frame length is in network byte order (Appendix B
of RFC 791). The symbol hash, the payload decoder, the clock, the server's replies and the providers'
answers are parameters or free choices of the environment. UUIDv5 (section 5.5 of RFC 9562) is taken to be
injective on its logical key. A failing commit is modelled by a budget of rows after which the engine
fails. Ghost fields (`log`, `grants`, `sources`, `committed`, `peak`, `slept`) record history for the
specifications only.

## Model

| member | source | states |
|---|---|---|
| `Framing.FindNewline` | reconciliation_engine/realtime/network_transport.py:416 | the index of the first newline, -1 when there is none |
| `Framing.StandsStillOnlyWhenStuck` | reconciliation_engine/realtime/network_transport.py:414-444 | every answer but one uses up bytes; the reader stands still exactly on a newline frame with more than `max_frame_bytes` bytes before any newline |
| `Framing.NewlineAnswerIsStable` | reconciliation_engine/realtime/network_transport.py:414-427 | an answer given from a prefix of a newline stream stays the answer when more bytes arrive, whatever they are |
| `Framing.LengthAnswerIsStable` | reconciliation_engine/realtime/network_transport.py:433-444 | the same for the length-prefixed framing |
| `Framing.AnswerIsStable` | reconciliation_engine/realtime/network_transport.py:446-449 | both framings together: chunk boundaries cannot change an answer |
| `Framing.LengthRoundTrip` | benchmarks/network/common.py:31-32 | unpacking the big-endian length gives the packed number back, for every 32-bit number |
| `Framing.HeaderRoundTrip` | reconciliation_engine/realtime/network_transport.py:435 | packing the unpacked length gives the same four bytes |
| `Framing.HeaderIsPositional` | reconciliation_engine/realtime/network_transport.py:435 | the header is the length written to base 256, most significant byte first |
| `Framing.ClosedIff` | reconciliation_engine/realtime/network_transport.py:418-444 | a connection ends without an answer exactly when its bytes end inside a frame that is not yet too long |
| `Framing.BlankIff` | reconciliation_engine/realtime/network_transport.py:421 | a blank newline frame is one of bytes 9 to 13 and 32 only; a blank length-prefixed frame has length 0 |
| `Framing.ReadUndoesEncode` | benchmarks/network/common.py:28-32 | reading the encoding of a payload, followed by anything, returns that payload and that rest exactly when the payload fits, is not blank and (newline framing) has no newline |
| `Framing.EncodeUndoesRead` | reconciliation_engine/realtime/network_transport.py:414-444 | whatever frame is read, its encoding followed by the rest is the stream it was read from, and the payload is a deliverable one |
| `Framing.RegularFrameIsAnswered` | reconciliation_engine/realtime/network_transport.py:414-444 | an encoded frame within the limit is answered by its payload, or refused as empty, and the next read starts behind it |
| `Framing.EncodedStreamParses` | benchmarks/network/common.py:28-32 | any sequence of frames within the limit, blank ones included, encoded back to back gets exactly one answer each, in order, then whatever follows |
| `Framing.ResumesAtBoundaryIff` | reconciliation_engine/realtime/network_transport.py:433-440 | after any length-prefixed frame the reader goes on behind it exactly when the payload does not exceed `max_frame_bytes` |
| `Framing.OversizedPayloadIsReparsed` | reconciliation_engine/realtime/network_transport.py:439-440 | a concrete oversized frame whose own payload is then delivered as an event |
| `LinkModel.DelayIsExponential` | reconciliation_engine/realtime/network_transport.py:473 | the delay after failed pass `n` is the back-off times two to the `n` |
| `LinkModel.DeliverTells` | reconciliation_engine/realtime/network_transport.py:457-486 | an event is a payload that the decoder accepts, a rejected payload one that it refuses, a rejected frame the refusal of the frame; nothing else is handed out |
| `LinkModel.AttemptAccounts` | reconciliation_engine/realtime/network_transport.py:454-470 | one pass of the retry loop takes exactly the next item of what is to come, or nothing |
| `LinkModel.ReceiveTakesTheNextItem` | reconciliation_engine/realtime/network_transport.py:451-486 | `receive` answers with the very next item of all connections and takes only it away; giving up takes nothing |
| `LinkModel.ReceivedIs` | reconciliation_engine/realtime/network_transport.py:451-486 | the outcome is exhaustion exactly when no connection in reach has an item; otherwise it is the head of what is to come, an event or a rejected payload as the decoder accepts it or not |
| `LinkModel.StalledForever` | reconciliation_engine/realtime/network_transport.py:423-426 | an oversized newline frame makes every later `receive` repeat the refusal without moving |
| `LinkModel.CallConserves` | reconciliation_engine/realtime/network_transport.py:451-503 | what is to come before a call is what the call used up followed by what is to come after it |
| `LinkModel.RunConserves` | reconciliation_engine/realtime/network_transport.py:451-503 | the same over any run of receives, reconnects and closes |
| `LinkModel.LedgerSplits` | reconciliation_engine/realtime/network_transport.py:451-503 | what a run does to items is exactly what its receives answer and what is open at each of its closes |
| `LinkModel.SentIsQueued` | benchmarks/network/common.py:28-32 | what senders encode, hosts that are down and connections cut off inside a frame included, is queued as one answer per complete frame |
| `LinkModel.EveryFrameIsAccountedFor` | reconciliation_engine/realtime/network_transport.py:380-503 | end to end, with closes: answered and discarded items in their order, then what is to come, are one answer per complete frame sent; discarded is exactly what was open at each close |
| `LinkModel.EveryCompletePayloadArrivesOnce` | reconciliation_engine/realtime/network_transport.py:380-503 | end to end, while nobody closes: the answers of `receive` are a prefix of the complete frames sent, and all of them once the senders are used up |
| `LinkModel.GivesUpIff` | reconciliation_engine/realtime/network_transport.py:484-486 | `receive` gives up exactly when none of the connections it may use has an item, and then after all its retries |
| `LinkModel.DialsPerReceive` | reconciliation_engine/realtime/network_transport.py:453-455 | one `receive` dials once per pass, except in the first pass of an open connection; at most `reconnect_attempts + 1` times |
| `LinkModel.TotalDelay` | reconciliation_engine/realtime/network_transport.py:473-483 | the first `n` delays sum to back-off times (2^n - 1) |
| `LinkModel.SleepIsBounded` | reconciliation_engine/realtime/network_transport.py:473-483 | one `receive` sleeps at most back-off times (2^r - 1), and exactly that when it gives up |
| `Transport.TCPTransport.Create` | reconciliation_engine/realtime/network_transport.py:357-360 | construction fails exactly for a frame limit that is not positive, or a negative number of reconnects or back-off |
| `Transport.TCPTransport.Connect` | reconciliation_engine/realtime/network_transport.py:380-398 | a no-op on an open connection, otherwise one dial and an empty buffer |
| `Transport.TCPTransport.Close` | reconciliation_engine/realtime/network_transport.py:488-491 | drops socket and buffer together |
| `Transport.TCPTransport.ReadNewlineFrame` | reconciliation_engine/realtime/network_transport.py:414-427 | for every chunking the in-place buffer loop answers what the chunk-free function of the remaining stream says, and leaves that stream |
| `Transport.TCPTransport.Fill` | reconciliation_engine/realtime/network_transport.py:429-431 | fills exactly when the connection still holds enough bytes, and loses none |
| `Transport.TCPTransport.ReadLengthPrefixedFrame` | reconciliation_engine/realtime/network_transport.py:433-444 | the same refinement for the length-prefixed framing |
| `Transport.TCPTransport.TryOnce` | reconciliation_engine/realtime/network_transport.py:454-470 | one pass of the loop refines the chunk-free pass; a failure closes the connection |
| `Transport.TCPTransport.Receive` | reconciliation_engine/realtime/network_transport.py:451-486 | the whole retry loop refines the chunk-free `Receive`, with its delays and dials; it gives up exactly when no connection in reach has an item, and otherwise answers by the next one: an event if the decoder accepts the payload, a rejected payload if not, a rejected frame with its error |
| `Transport.TCPTransport.ReceiveMany` | reconciliation_engine/realtime/network_transport.py:312-318 | a caller that receives repeatedly gets the replies of the chunk-free model, one after the other, each told by its kind and by the decoder |
| `Transport.RoundTrip` | benchmarks/network/common.py:28-32 | frames encoded on a connection come out of the reader one by one, in order, for every chunking: an accepted payload as the event, a refused one as the rejected payload, a blank one as an empty frame |
| `Transport.ReceiveFeeds` | reconciliation_engine/realtime/network_transport.py:380-503 | the same over hosts that are down and connections that break within a frame: the answers are the frames sent, in order, as far as the calls go |
| `Transport.BufferIsBounded` | reconciliation_engine/realtime/network_transport.py:400-444 | the buffer never exceeds the frame limit plus one chunk, in figures, and is empty without a socket |
| `VendorHistory.HighestIsMaximum` | reconciliation_engine/realtime/network_transport.py:277-286 | the tracked highest number is the maximum of the whole history |
| `VendorHistory.AbsentIsCardinality` | reconciliation_engine/realtime/network_transport.py:282-285 | the count of absent numbers is the cardinality of the set of numbers never seen |
| `VendorHistory.ClassifyReports` | reconciliation_engine/realtime/network_transport.py:276-288 | each status by the elements of the history: DUPLICATE for one of the last entries, IN_ORDER for one more than the greatest, GAP beyond that with the cardinality of the numbers between, REORDERED otherwise; the expected number is one above the greatest |
| `VendorHistory.FirstExactlyOnce` | reconciliation_engine/realtime/network_transport.py:276-278 | FIRST is reported for the first observation of a stream and no other |
| `VendorHistory.HighestIsAccounted` | reconciliation_engine/realtime/network_transport.py:276-286 | highest = first + number of IN_ORDER + number of GAP + sum of missing counts, for every history |
| `VendorHistory.GapsAreConserved` | reconciliation_engine/realtime/network_transport.py:270-297 | never-seen numbers plus late arrivals = announced missing plus stale repeats, for every history and window |
| `VendorHistory.ReportsGiveMissingIff` | reconciliation_engine/realtime/network_transport.py:270-297 | the reports alone give the number of never-seen events exactly when no number above the first recurred after leaving the window |
| `VendorHistory.NoStaleRepeatsIff` | reconciliation_engine/realtime/network_transport.py:270-297 | stale repeats described by the numbers alone |
| `VendorHistory.ReportsGiveMissingWithinWindow` | reconciliation_engine/realtime/network_transport.py:270-297 | that is so for every history of up to `duplicate_window + 2` observations |
| `VendorHistory.WindowBoundIsSharp` | reconciliation_engine/realtime/network_transport.py:291-297 | and fails for some history of `duplicate_window + 3`, whatever the window |
| `VendorHistory.ReorderedMeans` | reconciliation_engine/realtime/network_transport.py:287-288 | REORDERED means not above the highest and not in the window |
| `VendorHistory.ReorderedAsDocumentedIff` | reconciliation_engine/realtime/network_transport.py:287-288 | it means unseen and below the highest, as documented, if and only if no number of the history has left the window |
| `VendorHistory.HighestCanBeReordered` | reconciliation_engine/realtime/network_transport.py:287-288 | a history in which the highest number itself is reported REORDERED |
| `SequenceTracking.SequenceTracker.Create` | reconciliation_engine/realtime/network_transport.py:242-248 | construction fails exactly for a window that is not positive |
| `SequenceTracking.SequenceTracker.Remember` | reconciliation_engine/realtime/network_transport.py:289-297 | deque and count map slide together: the deque is the last window of observations, the map its multiset with positive counts only |
| `SequenceTracking.SequenceTracker.Decide` | reconciliation_engine/realtime/network_transport.py:270-288 | the branches classify as the full history says, and keep the maximum |
| `SequenceTracking.SequenceTracker.Observe` | reconciliation_engine/realtime/network_transport.py:250-298 | for any interleaving of streams the report is what the elements of that stream's history call for: status, expected number and the cardinality of a gap; rejected input changes nothing |
| `Equities.NormalizeRowIdempotent` | reconciliation_engine/storage/data_lake.py:169-184 | a second normalization of a row changes nothing; a row is valid exactly when its values are numeric and its normal form is valid |
| `Equities.NormalizeIdempotent` | reconciliation_engine/storage/data_lake.py:169-184 | the same for frames, including the business keys |
| `Equities.CanonicalizeGivesCanonical` | reconciliation_engine/scaling/equity_ingestion.py:87-88 | normalized and validated bars are canonical with unique keys |
| `Equities.CanonicalBarsSurvive` | reconciliation_engine/storage/data_lake.py:187-237 | archiving canonical bars, reading them back and normalizing again changes nothing |
| `Equities.BarOfRow` | reconciliation_engine/storage/data_lake.py:169-184 | the bar of a row is the only one that its cells say: the symbol between its white space in upper case, the day of the instant, the numbers held or read; and its values are sensible |
| `Equities.FlawedIff` | reconciliation_engine/reconciliation/equities.py:189-243 | a row is refused exactly for a missing or unreadable cell, a blank symbol, a negative value, or a price outside low and high |
| `Equities.CanonicalizeIff` | reconciliation_engine/scaling/equity_ingestion.py:87-98 | a payload gives these bars if and only if each row says its bar, in order, all are sensible and no symbol and day occur twice |
| `Equities.CanonicalizeFailsIff` | reconciliation_engine/scaling/equity_ingestion.py:87-88 | a payload is refused if and only if columns are missing, a row is flawed, or two rows are of the same symbol, in whatever spelling, and day |
| `Equities.ValidFrameIff` | reconciliation_engine/reconciliation/equities.py:189-243 | validation without normalization accepts the same frames, as long as no value cell is text |
| `Text.UpperIff` | reconciliation_engine/storage/data_lake.py:177 | upper case is the text with every letter in its upper case and no lower-case letter left |
| `Text.CanonIff` | reconciliation_engine/storage/data_lake.py:176-178 | the canonical form is what stands between the surrounding white space, in upper case |
| `Text.CanonAgreesIff` | reconciliation_engine/scaling/partitions.py:34 | two texts have the same canonical form exactly when they differ in case and surrounding white space only |
| `Text.BlankIff` | reconciliation_engine/reconciliation/equities.py:209-211 | a text is empty after stripping exactly when it is all white space |
| `Text.SqlTrimIff` | dbt/models/staging/stg_equity_bars.sql:5 | SQL trims the spaces at both ends and nothing else |
| `Reconciliation.BeyondIff` | reconciliation_engine/reconciliation/equities.py:164-185 | a difference exceeds the limit exactly when it exceeds the absolute limit and, where given, the share of either price, whatever the signs |
| `Reconciliation.JudgedIff` | reconciliation_engine/reconciliation/equities.py:161-187 | the comparison of two sides is the one row with their closes and volumes whose differences, status and reason are those of the rules, limit by limit |
| `Reconciliation.HybridIs` | reconciliation_engine/batch.py:55-58 | the daily limits in figures: 0.05 and 0.5 percent for BREAK, 0.01 and 0.1 percent for WARN |
| `Reconciliation.PairCompares` | reconciliation_engine/reconciliation/equities.py:133-187 | the rows of a pair are exactly the judged comparisons of what the two frames say of a key |
| `Reconciliation.CountIs` | reconciliation_engine/batch.py:356-360 | a status count is the cardinality of the places with that status |
| `Reconciliation.OuterJoinIsKeyed` | reconciliation_engine/reconciliation/equities.py:145-151 | the relational outer join of two validated frames has one row per key of either side, with exactly the two bars of that key |
| `Reconciliation.PairIsExact` | reconciliation_engine/reconciliation/equities.py:133-187 | a pair compares each key of the union once and nothing else |
| `Reconciliation.OneSidedIsBreak` | reconciliation_engine/reconciliation/equities.py:83-87 | for a key that only one frame has, the pair has exactly one row, a BREAK without differences that names the absent provider |
| `Reconciliation.SwapMirrors` | reconciliation_engine/reconciliation/equities.py:161-185 | swapping the providers negates the differences and keeps statuses and reasons |
| `Reconciliation.PairIsOrderFree` | reconciliation_engine/reconciliation/equities.py:133-187 | the rows of a pair do not depend on the row order of the frames |
| `ProviderPairs.CombinationsAre` | reconciliation_engine/reconciliation/equities.py:63-65 | every unordered pair of providers occurs once, in the order of the providers |
| `ProviderPairs.StatusColumn` | reconciliation_engine/reconciliation/equities.py:161-185 | overwriting MATCH with BREAK and then WARN gives BREAK where a close is missing or the difference exceeds every BREAK limit, WARN where it exceeds only every WARN limit, MATCH elsewhere |
| `ProviderPairs.ReasonColumn` | reconciliation_engine/reconciliation/equities.py:83-91 | overwriting the reason column gives the absent provider, else PRICE_DIFFERENCE on a break, else none |
| `ProviderPairs.ReconcileEquityBars` | reconciliation_engine/reconciliation/equities.py:97-187 | one pair: error order, and for frames without text or flaws exactly the judged comparisons of what their cells say |
| `ProviderPairs.ReconcileEquitySources` | reconciliation_engine/reconciliation/equities.py:52-93 | the loop over the pairs: each error for exactly its cause, else the rows are exactly the judged comparisons of what the cells of two frames say of a key, none twice when names differ beyond case |
| `ProviderPairs.ReconcileReconciles` | reconciliation_engine/reconciliation/equities.py:52-93 | the same of the specification function that the batch model uses |
| `ProviderPairs.CompareAllIff` | reconciliation_engine/reconciliation/equities.py:63-93 | a row is in the result if and only if it compares two of the sources |
| `ProviderPairs.PairsCoverAll` | reconciliation_engine/reconciliation/equities.py:63-66 | validating pair by pair validates every frame |
| `ProviderPairs.ReconciliationIsOrderFree` | reconciliation_engine/reconciliation/equities.py:52-93 | the whole result does not depend on row orders inside the frames |
| `ProviderPairs.ComparisonsAreDistinct` | reconciliation_engine/reconciliation/equities.py:52-93 | symbol, date and provider pair identify a result row |
| `DbtModel.TypedIff` | dbt/models/staging/stg_equity_bars.sql:1-12 | staging trims the spaces around source and symbol, upper-cases the source and keeps everything else |
| `DbtModel.StagingIsUnique` | dbt/models/staging/stg_equity_bars.sql:15-43 | staging leaves at most one row per run, source, symbol and date, whatever the table holds |
| `DbtModel.StagedIsGreatest` | dbt/models/staging/stg_equity_bars.sql:15-43 | the row kept has the greatest close, then volume, open, high and low of its business key |
| `DbtModel.StagingKeepsKeys` | dbt/models/staging/stg_equity_bars.sql:15-43 | and every row has one such row with its business key |
| `DbtModel.FactIsUnique` | dbt/models/intermediate/int_equity_pairs.sql:8-39 | one fact per business key and provider pair |
| `DbtModel.FactIsJudged` | dbt/models/marts/fct_equity_reconciliation.sql:17-53 | whatever the table holds, differences, status and reason of a fact follow from its closes and volumes by the limits of the model, in figures |
| `DbtModel.StageIff` | reconciliation_engine/storage/duckdb.py:567-591 | a staged row has the symbol, day and five values of its frame row |
| `DbtModel.RowsAreStaged` | dbt/models/staging/stg_equity_bars.sql:1-43 | for validated frames the duplicate ranking drops nothing |
| `DbtModel.LeftJoinIsAt` | dbt/models/intermediate/int_equity_pairs.sql:29-39 | a left join finds what the provider frame has for the key |
| `DbtModel.CaseExpressionsAgree` | dbt/models/marts/fct_equity_reconciliation.sql:29-52 | the SQL case expressions are the Python columns for every price pair with a side present |
| `DbtModel.FactIs` | dbt/models/intermediate/int_equity_pairs.sql:8-39 | the exact contents of the fact model for a loaded run with canonical symbols |
| `DbtModel.FactSays` | dbt/models/intermediate/int_equity_pairs.sql:8-39 | the same in terms of the cells: a row for each key that a frame says and each of the three pairs, with the two sides and the judgement in figures |
| `DbtModel.PythonRowsAre` | reconciliation_engine/reconciliation/equities.py:52-93 | the exact contents of the Python result in the same terms |
| `DbtModel.CanonicalSymbolsAgree` | dbt/models/marts/fct_equity_reconciliation.sql:17-53 | with canonical symbols, facts with a side present are the Python rows |
| `DbtModel.OtherSpellingDisagrees` | dbt/models/staging/stg_equity_bars.sql:5 | any stored symbol that SQL does not upper-case the way Python does breaks the agreement |
| `DbtModel.AgreeIff` | dbt/models/marts/fct_equity_reconciliation.sql:17-53 | agreement holds if and only if every stored symbol, trimmed by SQL, is spelled canonically |
| `DbtModel.ExtraFactsAre` | dbt/models/intermediate/int_equity_pairs.sql:13-17 | the facts that Python does not have are exactly the keys held by the third provider only, all BREAK |
| `Partitions.SortUniqueSorts` | reconciliation_engine/scaling/partitions.py:48 | sorting the set of symbols gives a strictly sorted sequence of the same elements |
| `Partitions.SortedIsUnique` | reconciliation_engine/scaling/partitions.py:48 | there is only one such sequence |
| `Partitions.FillBuckets` | reconciliation_engine/scaling/partitions.py:55-57 | the dictionary maps each occurring bucket to its symbols, in order |
| `Partitions.BuildWorkPartitions` | reconciliation_engine/scaling/partitions.py:38-79 | the loops return the specified partitions, which cover exactly the configured symbols and providers, or the error for exactly its cause |
| `Partitions.BuildCovers` | reconciliation_engine/scaling/partitions.py:38-79 | each spelling of a configured symbol is worked on at each configured provider and nothing else is; no partition is empty or repeated, and its symbols leave its bucket as the remainder of their hashes |
| `Partitions.PartitionIs` | reconciliation_engine/scaling/partitions.py:61-79 | a partition of the result is an occurring bucket at a requested provider with exactly its symbols |
| `Partitions.PartitionsCoverExactly` | reconciliation_engine/scaling/partitions.py:30-79 | at every provider each canonical symbol is in the partition of its bucket and in no other |
| `Partitions.PlanIsWellFormed` | reconciliation_engine/scaling/equity_ingestion.py:157-164 | the partitions are a proper plan: their slots, which are distinct, at the distinct spellings of the configured providers |
| `Partitions.SpellingDoesNotMatter` | reconciliation_engine/scaling/partitions.py:48 | lists that name the same symbols up to case and surrounding white space, in whatever order and however often, give the same partitions |
| `Partitions.EverySymbolOnce` | reconciliation_engine/scaling/partitions.py:30-79 | every configured symbol is at every provider in exactly one partition, under its one upper-case spelling, in the bucket that is the remainder of its hash |
| `Partitions.OnlyConfiguredSymbols` | reconciliation_engine/scaling/partitions.py:30-79 | every symbol and provider of a partition is the spelling of a configured one |
| `Partitions.PartitionsAreOrdered` | reconciliation_engine/scaling/partitions.py:61-79 | partitions come bucket by bucket in ascending order, within a bucket in the order in which providers are first listed |
| `Partitions.FirstOccurrencesInOrder` | reconciliation_engine/scaling/partitions.py:49 | providers keep the order of their first mention |
| `CrashFree.PoolIsUnique` | reconciliation_engine/scaling/equity_ingestion.py:278-283 | frames that share no key concatenate to a frame with unique keys |
| `HonestProviders.SlotsShareNoKey` | reconciliation_engine/scaling/equity_ingestion.py:82 | partitions of one provider that return only their own symbols share no key |
| `HonestProviders.HonestPayloadsAreGood` | reconciliation_engine/scaling/equity_ingestion.py:278-283 | readable answers whose symbols are spellings of those asked for can always be committed |
| `Ingestion.RunWorkerSound` | reconciliation_engine/scaling/equity_ingestion.py:53-107 | a worker running to its end keeps the archives sound and reports what is archived |
| `Ingestion.RunWorkerIsLocal` | reconciliation_engine/scaling/equity_ingestion.py:53-107 | what a worker does depends on its own partition only |
| `Ingestion.Lake.WriteRawOnce` | reconciliation_engine/storage/partitioned_data_lake.py:36-55 | writes only where nothing is archived; an existing archive stays |
| `Ingestion.Lake.WriteNormalizedOnce` | reconciliation_engine/storage/partitioned_data_lake.py:36-55 | the same on the normalized layer |
| `Ingestion.Lake.ExecutePartition` | reconciliation_engine/scaling/equity_ingestion.py:53-107 | an archived frame is loaded as it is; otherwise the payload is the archived one or the provider's, which is then archived; the loaded frame has one sensible bar per raw row with the values of its cells, and it breaks exactly when there is no payload, the payload is refused or the write fails |
| `Ingestion.RunWorkerExecutes` | reconciliation_engine/scaling/equity_ingestion.py:53-107 | the worker of the step system does the same |
| `Ingestion.RanExecutes` | reconciliation_engine/scaling/equity_ingestion.py:174-192 | and so does each worker of the pool |
| `Ingestion.Manifest.Register` | reconciliation_engine/storage/duckdb.py:366-396 | registers slot by slot, as the step system does |
| `Ingestion.Manifest.MarkRunning` | reconciliation_engine/storage/duckdb.py:399-413 | the step of the step system: counts an attempt except for a SUCCESS row |
| `Ingestion.Manifest.Finish` | reconciliation_engine/storage/duckdb.py:416-442 | the step of the step system: overwrites status and row count without a guard |
| `Ingestion.AnnouncedIs` | reconciliation_engine/storage/duckdb.py:366-413 | after registering and marking, a new partition has one attempt and an unsuccessful one has one more; successful rows stay |
| `Ingestion.RunWorkers` | reconciliation_engine/scaling/equity_ingestion.py:174-192 | every worker runs on the archives as they were; each missing raw payload is fetched once, nothing else is |
| `Ingestion.Announce` | reconciliation_engine/scaling/equity_ingestion.py:170-172 | registers all, then marks all |
| `Ingestion.FinishOutcomes` | reconciliation_engine/scaling/equity_ingestion.py:194-272 | the loop over the outcomes records each partition and pools the frames |
| `Ingestion.IngestPlan` | reconciliation_engine/scaling/equity_ingestion.py:170-283 | frames exactly when all is normalized, exactly the other partitions named otherwise; archives, calls, attempts and successful rows as specified |
| `Ingestion.IngestEquityPartitions` | reconciliation_engine/scaling/equity_ingestion.py:141-283 | the same from symbols and adapters, with the errors for worker count and partitions, which change nothing |
| `Schedules.FollowsOneStep` | reconciliation_engine/scaling/equity_ingestion.py:53-107 | a worker step keeps to the script of a worker running alone |
| `Schedules.InterleavingFollows` | reconciliation_engine/scaling/equity_ingestion.py:174-192 | under any interleaving every worker follows a script of its own |
| `Schedules.InterleavingIsSequential` | reconciliation_engine/scaling/equity_ingestion.py:174-192 | any schedule of the pool ends with the archives and outcomes of the workers running one after the other in completion order |
| `Schedules.AnnouncingRun` | reconciliation_engine/scaling/equity_ingestion.py:170-172 | the steps before the pool leave the manifest that `Announce` leaves |
| `Schedules.FinishingRun` | reconciliation_engine/scaling/equity_ingestion.py:198-246 | the steps over the outcomes leave the manifest that `FinishOutcomes` leaves |
| `Recovery.WorkerStepSound` | reconciliation_engine/scaling/equity_ingestion.py:60-98 | every worker step keeps: normalized implies raw and is its validated normalization; a call only without raw |
| `Recovery.PoolIsOrderFree` | reconciliation_engine/scaling/equity_ingestion.py:191-192 | the order in which partitions complete does not change what is pooled |
| `Recovery.WorkPreserves` | reconciliation_engine/scaling/equity_ingestion.py:60-107 | worker steps keep the invariant under any interleaving |
| `Recovery.FinishingPreserves` | reconciliation_engine/scaling/equity_ingestion.py:198-246 | recording an outcome keeps the invariant although the update is unguarded |
| `Recovery.ArchivingPreserves` | reconciliation_engine/storage/data_lake.py:187-237 | each step of archiving a provider keeps the invariant, also when it resumes half-written archives |
| `Recovery.AdvancePreserves` | reconciliation_engine/batch.py:281-387 | every step of the main thread keeps the invariant |
| `Recovery.StepPreserves` | reconciliation_engine/batch.py:281-387 | so does every step, including a crash |
| `Recovery.RunPreserves` | reconciliation_engine/batch.py:281-387 | the invariant holds after any history of attempts, crashes and retries |
| `RecoveryLaws.ArchivesNeverChange` | reconciliation_engine/storage/partitioned_data_lake.py:44-46 | no archive and no committed run is ever removed or changed |
| `RecoveryLaws.NeverFetchedAgain` | reconciliation_engine/scaling/equity_ingestion.py:69-85 | once a raw payload is archived its provider is never called for that partition again |
| `RecoveryLaws.SuccessIsFinal` | reconciliation_engine/storage/duckdb.py:399-442 | a SUCCESS row keeps status, attempts and row count over every later retry, and the count is that of the archive |
| `RecoveryLaws.CompletedRunIsNoOp` | reconciliation_engine/batch.py:283-297 | once a run is committed nothing changes any more and no provider is called |
| `RecoveryLaws.CompleteArchivesAreReused` | reconciliation_engine/batch.py:300-320 | once every provider has its run archive, no retry touches a partition, its manifest row or its provider again |
| `RecoveryLaws.CommittedRunIsCrashFree` | reconciliation_engine/batch.py:281-387 | whatever happened: every payload is readable, the committed rows are exactly the judged comparisons of what the archived rows of two providers say, equal to those of a crash-free run, and counts and status are those of the rows |
| `RecoveryLaws.EveryRowIsCompared` | reconciliation_engine/batch.py:281-387 | every archived row of a provider appears, with its close and volume, as a side of a committed comparison with each other provider |
| `CrashFree.CrashFreeResultIs` | reconciliation_engine/batch.py:299-349 | the crash-free result in terms of the archived cells |
| `CrashFree.PartitionsSoundIff` | reconciliation_engine/scaling/equity_ingestion.py:85-98 | archives are sound exactly when each normalized frame is what the cells of its raw payload say |
| `CrashFree.GoodPayloadsIff` | reconciliation_engine/scaling/equity_ingestion.py:278-283 | payloads can be reconciled exactly when all are readable and no two partitions of a provider bring the same symbol and day |
| `RecoveryLaws.MalformedPayloadIsFinal` | reconciliation_engine/scaling/equity_ingestion.py:85-88 | a payload with a flawed or repeated row, once archived, keeps its partition from SUCCESS and the run from committing for good |
| `Resumption.StepForward` | reconciliation_engine/batch.py:281-387 | with good payloads the attempt can always take a step that brings it closer to the commit without a provider call |
| `Resumption.SmoothStepForward` | reconciliation_engine/batch.py:281-387 | with good payloads every step without crash or failed write, whoever takes it, comes closer to the commit and calls no provider |
| `Resumption.EveryScheduleCommits` | reconciliation_engine/batch.py:281-387 | so every schedule of such steps commits after at most 9 steps per partition, 2 per provider and 9 more |
| `Resumption.RetryCommits` | reconciliation_engine/batch.py:299-340 | and never gets stuck: such a schedule exists after any interruption |
| `Resumption.AfterCrashOnlyDiskCounts` | reconciliation_engine/batch.py:281-387 | an attempt may die between any two steps, and all that follows depends on the disk alone |
| `Resumption.CanCommitIff` | reconciliation_engine/batch.py:281-387 | with all raw payloads archived, some continuation commits if and only if none has a flawed row or repeats an observation, and no two partitions of a provider bring the same one |
| `ResultRows.ReconciliationRows` | reconciliation_engine/storage/duckdb.py:622-666 | the loop writes for each comparison, in order, a close row and a volume row with its sides, difference, status and reason |
| `ResultRows.PivotUndoesLongForm` | reconciliation_engine/api/service.py:92-114 | the grouped query returns exactly the comparisons written, whatever other runs the table holds |
| `ResultRows.PrimaryKeyIff` | reconciliation_engine/storage/duckdb.py:145-162 | the primary key accepts the long form if and only if no comparison occurs twice |
| `Database.BreaksAre` | reconciliation_engine/reconciliation/exceptions.py:34 | the break rows are those with status BREAK, as many as counted |
| `Database.CreateEquityExceptions` | reconciliation_engine/reconciliation/exceptions.py:30-79 | one exception per BREAK row, in order, with its identity, values, reason and due time |
| `Database.ExceptionsAreDistinct` | reconciliation_engine/reconciliation/exceptions.py:53-59 | exceptions of distinct comparisons have distinct identities |
| `Database.InsertMany` | reconciliation_engine/storage/duckdb.py:797-828 | a batch of inserts succeeds exactly when no key is repeated and the engine does not fail |
| `Database.StagedKeysDiffer` | reconciliation_engine/storage/duckdb.py:567-591 | validated frames never collide in the staging table |
| `Database.CommitKeepsConsistent` | reconciliation_engine/storage/duckdb.py:737-833 | storing one more run keeps every stored run complete and faithful |
| `Database.ReadyToCommit` | reconciliation_engine/storage/duckdb.py:737-833 | a new run violates no key: it is stored unless the engine fails |
| `Database.Tables.PersistEquityRun` | reconciliation_engine/storage/duckdb.py:737-833 | all four inserts or none; a repeated or failed call changes nothing |
| `Database.Tables.CommitRun` | reconciliation_engine/batch.py:356-380 | the end of `main`: stored if and only if new and the engine holds out, with the whole new contents of the tables and one exception that reports each BREAK row; otherwise nothing changes |
| `Database.StoredRunCounts` | reconciliation_engine/storage/duckdb.py:756-833 | status counts as cardinalities, row counts as the staged rows of each source, twice as many result rows, one distinct exception per break, status SUCCESS iff no break, for every stored run |
| `Database.StagedAreCounted` | reconciliation_engine/storage/duckdb.py:567-591 | a source has as many staged rows as its frame |
| `Database.StoredExceptionsReport` | reconciliation_engine/reconciliation/exceptions.py:30-79 | the exceptions of a stored run report its BREAK rows one by one, in order: sides, difference, the row's own reason, and a day to resolve it |
| `Database.ApiReturnsCommittedRows` | reconciliation_engine/api/service.py:92-114 | for every stored run the API rows are the committed reconciliation |
| `ServedResult.ServedAlikeIff` | reconciliation_engine/api/service.py:92-114 | for a stored run the API rows and the sided dbt facts are the same exactly when its frames spell symbols canonically |
| `ServedResult.RunFramesAreCanonical` | reconciliation_engine/batch.py:310-340 | frames of a batch run are normalized, so they always do |
| `ServedResult.MoveKeepsLink` | reconciliation_engine/batch.py:364-387 | batch and tables agree on whether the run is committed and on what was, after every step of the batch and every other run stored |
| `ServedResult.CommitReached` | reconciliation_engine/batch.py:364-380 | the transaction at the end of `main` is the commit step of the batch, and its failure a crash |
| `ServedResult.ServedRunIsCrashFree` | reconciliation_engine/batch.py:281-380 | the whole path: after any history of batch and tables, once the run is committed the API and the dbt fact both serve exactly the judged comparisons of what the archived rows of two providers say, and nothing before |
| `RateLimiter.SpacedApart` | reconciliation_engine/ingestion/massive.py:36-40 | grants `n` places apart are at least `n` intervals apart |
| `RateLimiter.MinuteHoldsAtMost` | reconciliation_engine/ingestion/massive.py:23-40 | no half-open minute, wherever it starts, holds more than `calls_per_minute` grants |
| `RateLimiter.MassiveRateLimiter.Create` | reconciliation_engine/ingestion/massive.py:26-31 | construction fails exactly for a quota that is not positive |
| `RateLimiter.MassiveRateLimiter.Wait` | reconciliation_engine/ingestion/massive.py:33-40 | one more grant, spaced from all earlier ones; no sleep beyond the time of the next request is asked for |
| `RateLimiter.FillMinute` | reconciliation_engine/ingestion/massive.py:29-40 | the limiter itself reaches the bound: on an exact clock back-to-back waits fill their first minute and the next grant comes as it ends |
| `RateLimiter.RecordedPlaces` | reconciliation_engine/ingestion/massive.py:33-40 | the grants of one call stand among all grants in order, behind the earlier ones, with exactly the grants of other callers between them |
| `RateLimiter.VerdictTells` | reconciliation_engine/ingestion/massive.py:86-124 | each result by the last reply: which codes, bodies and headers give which error or value |
| `RateLimiter.PauseIs` | reconciliation_engine/ingestion/massive.py:105-122 | the pause doubles from 1 to 16 seconds and then stays at 30, unless the server names a time |
| `RateLimiter.GetJson` | reconciliation_engine/ingestion/massive.py:77-124 | stops at the first reply that is not retried or when attempts are used up; the codes that are retried, the result for each kind of last reply and the pauses 1, 2, 4, 8, 16, 30 or as the server asks are given in figures; one grant per attempt among those of other callers, at most `max_retries + 1` |
| `AnomalyWindow.LaterCutoffFilters` | reconciliation_engine/dashboard.py:464-466 | what an earlier snapshot dropped a later one would drop as well |
| `AnomalyWindow.PrefixIsOld` | reconciliation_engine/dashboard.py:465-466 | dropping old times from the front of an ascending deque is filtering |
| `AnomalyWindow.RealtimeStateTracker.Create` | reconciliation_engine/dashboard.py:426-446 | construction fails exactly for bounds that are not positive |
| `AnomalyWindow.RealtimeStateTracker.Observe` | reconciliation_engine/dashboard.py:448-457 | a valid tick extends the log; an invalid one changes nothing |
| `AnomalyWindow.RealtimeStateTracker.RecordWarning` | reconciliation_engine/dashboard.py:459-460 | a warning extends the log and nothing else |
| `AnomalyWindow.RealtimeStateTracker.TakeSnapshot` | reconciliation_engine/dashboard.py:462-496 | count, status, message and latest values, entry by entry of the whole log: each status by the newest tick, the silence since and the warning after it, whatever was pruned before |
| `AnomalyWindow.CountIsCardinality` | reconciliation_engine/dashboard.py:493 | the count shown is the number of logged anomalous ticks not older than the cutoff |
| `AnomalyWindow.StatusShown` | reconciliation_engine/dashboard.py:468-487 | each of the five statuses and its message, by the newest tick and the newest entry |
| `AnomalyWindow.LiveIff` | reconciliation_engine/dashboard.py:468-487 | LIVE exactly when the newest tick is fresh and no warning came after it |

## Left out

- Sockets, TLS, the multicast transport, telemetry and logging; peer close, timeout and socket error are one end of connection.
- JSON decoding and `MarketEvent` validation: a predicate that accepts or rejects a payload.
- Transport.TCPTransport.Create: host, port, framing name and time-outs are not modelled, only the settings the protocol uses.
- LinkModel.RunConserves: a refusal of an oversized newline frame that will be repeated uses nothing up; the repetition itself is `LinkModel.StalledForever`.
- Equities.NormalizeRowIdempotent: `strip` and `upper` cover ASCII; other Unicode white space and case mappings are not modelled.
- Equities.CanonicalizeGivesCanonical: the validation errors are one condition without their messages; non-finite numbers are not modelled, a column counts as numeric when none of its cells is text, symbol cells are text or null.
- Reconciliation.PairIsExact: the order in which pandas returns merged rows is not modelled; results are compared as sets or multisets of rows.
- DbtModel.AgreeIff: arithmetic is on reals and the staging columns hold them exactly; rounding of FLOAT columns is not modelled.
- Partitions.BuildWorkPartitions: run id, control date and instrument type are the same for all partitions of a run and left out; a partition is identified by provider and bucket.
- Ingestion.RunWorkers: the workers run one after the other; that every interleaving ends alike is `Schedules.InterleavingIsSequential`.
- Ingestion.IngestEquityPartitions: the adapters are taken to be named by their canonical provider names, as the configured ones are.
- Ingestion.Manifest.Finish: time stamps and error texts of a manifest row are not modelled.
- RateLimiter.GetJson: infinite or NaN `Retry-After` values are not modelled.
- AnomalyWindow.RealtimeStateTracker.Observe: the validation of a tick is a given accept or reject.
- Database.Tables.PersistEquityRun: start and finish times, trace ids and the constant columns of an exception are not modelled.
- Parquet and DuckDB internals: a written frame is read back unchanged, a file write happens completely or not at all, a transaction commits or does nothing; extra archive columns and file permissions are not modelled.
- Retention: archives of an open run are not deleted. Two batch processes on one run: one process at a time.
- `normalize_symbols`, `build_run_id` and the environment configuration: the plan of a run is given.
- `replay_archived_run`: it recomputes with default tolerances, so its result is not the stored one.
- Options and futures reconciliation, the tick scorer, API pagination and authentication, alerts, notifications, dashboards, benchmarks other than the frame encoder: simpler repeats of shapes already covered, or input and output.
