# Makolet, modelled and proved

Makolet collects price and promotion files from untrusted retail publishers, archives
every byte, and keeps a normalised, queryable state. This project models the parts
whose correctness is hard to see from the code and proves what they promise. The
model has one module per component, all in this directory; `dafny verify dfyconfig.toml`
checks it.

| module | models | main result |
|---|---|---|
| `ByteLedger`, `Repository` | the reference store: checkpoints moved by compare-and-set, reservations and settlements | every charged byte is explained in every run of calls; a settlement charges exactly what its bytes cost and never raises a charge |
| `Download` | the retrying download and the bytes an ingestion reports | the total stays within one chunk of the allowance, however it ends |
| `Listing`, `Collection` | one bounded run over a publisher, and any number of them | it ends on every publisher, keeps the byte ceilings and the day counters, charges what it moved, leaves a gap-free, repeat-free prefix of the listing behind, and with nothing in its way all of it |
| `Projection`, `ProjectionStore`, `Keyset` | columns kept by triggers, deferred triggers and backfills | after every transaction the columns are the join |
| `Staging` | greedy batches under two limits, summaries | the batches are the file, write no more rows than allowed, and no cut into fewer exists |
| `Lifecycle` | the status table and what the service does to it | completion is earned; terminal is final; what each failure leaves; exactly one request is outside the table |
| `Buckets` | batched five-minute buckets of the charge audit | one GROUP BY, complete in the window, never less than the last 24 hours |
| `Worker` | producer and consumers over a bounded queue | pending is queued or in flight, never both; spacing; health is the summary of the history |
| `Json`, `Sbom` | the compact printer and SBOM comparison | equal canonical forms exactly for documents equal up to reordering; the difference reported is the first |
| `Manifest` | the indented printer and the backup manifest | the incremental count is the exact length, and the text tells the inventory and nothing else |
| `Base64Url`, `Cursor` | pagination cursors and history windows | a cursor is read back under its own scope only; a walk keeps its window |
| `Rebuild` | the restartable rebuild | interrupted anywhere, it ends as the uninterrupted fold |
| `Catalog` | candidate matching | symmetric, bounded, independent of the block's order |
| `Capacity` | the free-space floor under a shared lock | the floor holds in every interleaving |
| `FtpControl` | the bounded FTP reply reader and its budget | a standard reply is read whole exactly when no line strays, reading is bounded, an exhausted budget stays exhausted |
| `Prelude`, `Sums` | shared definitions and sums over maps | |

Everything outside the modelled code (publishers, PostgreSQL, the object store, clocks,
jitter, the JSON library where only its round trip matters, digests) is a parameter:
a function or a sequence over which each theorem quantifies. Where a call may fail, it
may fail before or after taking effect.

Objects whose methods update fields are classes, loops are loops with invariants, and
each such method is tied to a specification function whose properties are separate
lemmas. Pure code is functions. Interleavings are sequences of atomic steps between
awaits.

## Findings

Properties that the code does not have as one might state them, each with its exact
condition in the model:

- A settlement within its reservation is still refused, exactly when the file is already
  terminal, its object was never charged and its declared length exceeds the reservation
  (`ByteLedger.SettleRefusedExactly`, `ByteLedger.SettleRefusedWitness`).
- A generation can have the whole listing behind it and still be open: closing takes one
  more move. That is so exactly when it stands past the last file with nothing listed
  after it (`Listing.OpenButExhausted`); a closed one always has the whole listing behind
  it. A run with nothing in its way stays open exactly when it starts before the last page
  and the files before that page use up one of its own limits: all of them the record
  limit, or those that need a transfer the file limit (`Collection.Collect`). The last
  page then need not be empty; it is enough that nothing on it needs a transfer. Such a
  run exists (`Collection.ExhaustedYetOpen`).
- A bounded attempt clears the retry boundary even if it moved nothing, for instance one
  whose listing budget is used up at its first request (`Collection.Collect`).
- Recording a retryable failure of a file that already failed retryably asks for a change
  the table does not contain, and the refusal replaces the original error; without other
  faults recording fails in no other case (`Lifecycle.SourceFile.RecordFailure`;
  `Lifecycle.MaskedFailure` is a run in which it happens).
- A file left in the middle of processing and ingested again before stale recovery is
  refused by the status guard, and that conflict is then recorded as a terminal failure
  (`Lifecycle.SourceFile.IngestFile`; `Lifecycle.LeftInTheMiddle` is such a run).
- A worker consumer whose start announcement fails dies, and the health table goes on
  showing its source in flight (`Worker.Scheduler.AnnounceRun`) until the source is started
  again. The table is wrong about exactly the sources whose history ends in such an
  abandoned start (`Worker.InFlightIsExact`, `Worker.Scheduler.Interleave`). When all
  consumers are dead the queue never shrinks again.
- The cursor decoder accepts several texts for one body: explicit padding,
  standard-alphabet characters and stray low bits pass. Exactly one text per body, the
  unpadded one in the URL alphabet without stray bits, is the encoder's own
  (`Base64Url.CanonicalIsTheCode`, `Base64Url.DecodesAlike`).
- The FTP reader ends a multi-line reply at any line that carries its code without a
  hyphen, not only at one with a space, and takes a line without a code for a reply. It
  agrees with section 4.2 of RFC 959 exactly when no line inside the reply does so
  (`FtpControl.StandardTaken`, `FtpControl.TakenStandard`, `FtpControl.FramingsDiffer`).

## Model

| member | source | states |
|---|---|---|
| `ByteLedger.EveryRunExplained` | src/makolet/application/collection.py:1090-1171 | after any sequence of repository calls each attempt's charge is its open reservations plus settled transfers plus the archived objects it paid for, each source's charge is the sum over its attempts, and the three day counters are the cardinalities they stand for |
| `ByteLedger.PaidAtMostOnce` | src/makolet/application/collection.py:1145-1171 | once an archived object is paid for, no later call changes who paid or how much |
| `ByteLedger.SettleNeverRaises` | src/makolet/application/collection.py:1125-1171 | settling raises neither any attempt's charge nor any source's |
| `ByteLedger.SettleCharges` | src/makolet/application/collection.py:1142-1171 | a granted settlement of t bytes replaces the open reservation, for the attempt and its source and for no one else, by exactly t if the object is unpaid and the file not terminal, by the larger of t and the declared length if it is terminal and unpaid, and by what goes beyond the declared length if it was paid already and counts as attached; the object becomes paid and a success is counted exactly when it is newly attached |
| `ByteLedger.SettleRefusedExactly` | src/makolet/application/collection.py:1145-1161 | a settlement within its reservation is refused if and only if the file is terminal, its object was never charged and its declared length exceeds the reservation |
| `ByteLedger.SettleRefusedWitness` | src/makolet/application/collection.py:1145-1161 | after an actual sequence of calls, a settlement within its open reservation is refused: the file is terminal and uncharged and declares more than was reserved |
| `ByteLedger.OpenExplained` | src/makolet/application/collection.py:970-997 | opening an attempt keeps every balance |
| `ByteLedger.ReserveExplained` | src/makolet/application/collection.py:1102-1123 | reserving keeps every balance, refused and repeated reservations included |
| `ByteLedger.SettleExplained` | src/makolet/application/collection.py:1125-1171 | settling keeps every balance, with the payments extended by at most one object |
| `ByteLedger.CloseExplained` | src/makolet/application/collection.py:1039-1059 | finishing an attempt keeps every balance |
| `ByteLedger.ReserveWithin` | src/makolet/application/collection.py:570-621 | a reservation of no more than both remainders keeps the run and day ceilings |
| `ByteLedger.SettleWithin` | src/makolet/application/collection.py:1125-1171 | settling keeps both ceilings |
| `Download.SpentWithinOneChunk` | src/makolet/application/ingestion.py:618-633 | if each open overshoots its allowance by at most one chunk, any number of opens stays within the whole allowance plus one chunk |
| `Download.Reported` | src/makolet/application/ingestion.py:638-719 | what an open reports is at least what its session saw, at least what was stored and at least what its error carries, and equals one of these |
| `Download.SessionsReported` | src/makolet/application/ingestion.py:638-719 | however many opens are made, nothing that a session saw pass is missing from the total |
| `Download.MakesOneNumber` | src/makolet/application/ingestion.py:600-624 | the opens a download makes are determined: on while the allowance and the attempts last and the last failure was transient, of the repository, or an unknown exception after bytes were moved |
| `Download.DownloadAndArchive` | src/makolet/application/ingestion.py:599-746 | exactly that many opens are made; the bytes reported on success or failure are exactly the sum over them and at least what the sessions saw, and the loop ends with a stored file, a final failure, the last attempt, or the allowance used up |
| `Download.Ingest` | src/makolet/application/ingestion.py:184-305 | what an ingestion reports, returned or raised, is what its opens moved and at least what their sessions saw, and fits the allowance plus one chunk; barred, completed and archived files open nothing; it succeeds if nothing fails and the allowance is enough for the file |
| `Download.Propagated` | src/makolet/application/ingestion.py:271-284 | a failure after a download keeps its kind and reports the larger of its own bytes and those moved; an unknown exception becomes a repository error exactly if bytes were moved |
| `Repository.Store.constructor` | src/makolet/application/collection.py:956-968 | the empty store satisfies the invariant |
| `Repository.Store.BeginAttempt` | src/makolet/application/collection.py:970-997 | a closed generation starts afresh with the next number, an open one resumes where it stood; the ledger opens the attempt |
| `Repository.Store.AdvanceAttempt` | src/makolet/application/collection.py:999-1037 | the checkpoint moves only from the position the caller expects, its counters count exactly the files left behind, and a refused move changes nothing |
| `Repository.Store.FinishAttempt` | src/makolet/application/collection.py:1039-1059 | the attempt stops running; the generation is complete as told and has a retry boundary only after a failure that did not complete it |
| `Repository.Store.RecordTerminal` | src/makolet/application/collection.py:1080-1088 | the file becomes terminal in its mode and nothing else changes |
| `Repository.Store.ReserveTransfer` | src/makolet/application/collection.py:1102-1123 | refines the ledger's reservation and keeps the invariant |
| `Repository.Store.SettleTransfer` | src/makolet/application/collection.py:1125-1171 | refines the ledger's settlement, keeps the invariant and every earlier payment, and when granted over an open reservation charges exactly what the bytes cost, stated on the charges before and after |
| `Listing.StandsAfterWalk` | src/makolet/application/collection.py:503-556 | walking part of the page at the checkpoint leaves exactly the files before the new position behind |
| `Listing.StandsAfterPage` | src/makolet/application/collection.py:719-746 | following the continuation cursor stands at the start of the next page, and the last page leaves the whole listing behind |
| `Listing.TrailIsPrefix` | src/makolet/application/collection.py:477-757 | the files behind a checkpoint are a gap-free prefix of an acyclic listing |
| `Listing.TrailNeverRepeats` | src/makolet/application/collection.py:733-735 | no position is behind a checkpoint twice |
| `Listing.OpenButExhausted` | src/makolet/application/collection.py:719-732 | an open generation has the whole listing behind it if and only if it stands past the last file of its page and no later page lists anything |
| `Listing.OnNextPage` | src/makolet/application/collection.py:719-746 | past the last file of a page a checkpoint stands at the start of the next one, and past the last page the whole listing is behind it |
| `Collection.ReserveBooks` | src/makolet/application/collection.py:606-621 | a reservation within the remainders is granted, keeps both ceilings and books exactly the reserved bytes |
| `Collection.SettleBooked` | src/makolet/application/collection.py:637-663 | settling the booked transfer keeps ceilings and balances and adds at most one success; if it is not refused nothing stays reserved, and it is refused only beyond the reservation or for a terminal file |
| `Collection.StopsJustly` | src/makolet/application/collection.py:826-837 | there is a reason to stop if and only if one of the two byte budgets or three day counters has reached its limit, and the reason names one that has |
| `Collection.RangeIsClosed` | src/makolet/application/collection.py:880-891 | a range includes both its ends and nothing beyond them, and a file without a time is in no bounded range |
| `Collection.CappedTransfer` | src/makolet/application/collection.py:562-621 | a transfer started below every limit leaves each day counter at most at its limit, and any transfer adds at most one to each; no other source's counters move |
| `Collection.ProcessFile` | src/makolet/application/collection.py:425-472 | on success the file is settled and exactly it becomes terminal; what is settled is exactly what its opens moved; an honest publisher's file that was not terminal is never refused its settlement; in a fine world an allowance of one whole object always succeeds |
| `Collection.AdvancePast` | src/makolet/application/collection.py:699-710 | the compare-and-set never fails, and the trail gains exactly this file |
| `Collection.HandleError` | src/makolet/application/collection.py:637-698 | whatever was raised, the checkpoint moves past the file only if it is dealt with, ceilings and balances hold, the bytes the error carries are charged unless that is refused, and a stop names the smaller of the two byte remainders |
| `Collection.CarryOut` | src/makolet/application/collection.py:616-716 | a registered file is reserved, processed and left behind, or its error handled; the first transfer of a file neither terminal nor paid costs the attempt exactly the bytes its opens moved, or its reservation if none moved; enough for the transfers ahead before means enough for the remaining ones after |
| `Collection.EnoughForOne` | src/makolet/application/collection.py:564-604 | with bytes and day counters enough for the transfers ahead, nothing stops the next one and it is reserved for a whole object and one chunk |
| `Collection.EnoughForRest` | src/makolet/application/collection.py:699-716 | one transfer later there is enough for those that remain, and no limit is reached |
| `Collection.NeedStep` | src/makolet/application/collection.py:522-561 | passing a file leaves one transfer less to do exactly if the file needed one: known format, in range and its object not terminal yet, each object once |
| `Collection.TransferFile` | src/makolet/application/collection.py:562-716 | register, reserve, ingest, settle and advance: at most one file further, settled when it advances, refused only for a file that was terminal; with nothing in its way it advances and leaves enough for the rest |
| `Collection.VisitFile` | src/makolet/application/collection.py:503-716 | the decisions on one listed file, with discovered and ingested counts within their limits: it is transferred exactly if it is readable, in range and not terminal, or terminal and to be retried; a stop is justified by the books; past a transfer no limit is reached; a scope violation is exactly one; skipped files are the unreadable ones. With nothing in its way the file is always left behind |
| `Collection.WalkPage` | src/makolet/application/collection.py:503-718 | the trail gains exactly the page's files from the offset to where the walk stopped, and the day counters stay capped; with nothing in the way all of them, with every needed transfer made and counted |
| `Collection.TurnPage` | src/makolet/application/collection.py:719-746 | turning the page moves the checkpoint to the next cursor and leaves no file behind |
| `Collection.LeavePage` | src/makolet/application/collection.py:719-757 | a page's end closes the generation, breaks the run or goes on below both limits with a cursor of 1 to 8192 bytes that is new; it closes as a failure exactly if everything behind was unreadable |
| `Collection.TakePage` | src/makolet/application/collection.py:492-757 | one page, keeping to its scope; going on means at least one more file was discovered; with nothing in the way listed files and transfers are accounted for exactly |
| `Collection.Traverse` | src/makolet/application/collection.py:477-763 | the traversal ends on every publisher, endless fresh cursors included, after at most one page more than the record limit, and is completed or truncated, never both; a calm one makes every needed transfer and completes if and only if it does not stop short |
| `Collection.Ends` | src/makolet/application/collection.py:747-757 | a calm run reaches the last page if and only if the files before it use up neither the record limit nor, counting the transfers needed, the file limit |
| `Collection.Collect` | src/makolet/application/collection.py:397-784 | one attempt from begin to finish: invariant, ceilings, earlier payments and other scopes kept, nothing left behind undealt with, closed exactly when the traversal completed. Each day counter of the source ends at most at the larger of its limit and what it was, or one more if a retry was pending, and no other source's moves; a run stops for a limit only if that limit is reached, and one that closes after a transfer has reached none; the generation is numbered on exactly after a closed one. If the world is fine, the listing tidy, and limits and budgets enough for the files ahead and the transfers they need, then every needed transfer is made, and the generation closes with the whole listing behind it if and only if the files before the last page use up neither limit. With the listing budget used up at once nothing moves and the retry boundary is cleared |
| `Collection.CollectRepeatedly` | src/makolet/application/collection.py:397-784 | after any number of completed, truncated and failed attempts at any scopes, each against its own fixed acyclic listing, every generation is a gap-free, repeat-free prefix counted exactly by recognised plus unknown, and whole if closed; every source's day counters are at most the larger of their limit and what they were, plus one for each attempt that began with a retry pending; a scope whose last attempt was favoured ends as that attempt left it |
| `Collection.StandingIsExact` | src/makolet/application/collection.py:477-784 | a resumable checkpoint has such a prefix behind it |
| `Collection.ExhaustedYetOpen` | src/makolet/application/collection.py:747-757 | a run from an empty store with a file longer than a chunk reaches its file limit at the last file and leaves the whole listing behind and the generation open |
| `Projection.ApplyConsistent` | migrations/versions/0010_bounded_query_paths.py:71-543 | an admitted statement keeps foreign keys and one match per item |
| `Projection.ViewIsTheJoin` | migrations/versions/0010_bounded_query_paths.py:71-168 | the view has exactly the table's rows, each with the product of its item's match if there is one and, for prices, the item's retailer |
| `Projection.InsertKeeps` | migrations/versions/0010_bounded_query_paths.py:174-261 | the insert triggers project exactly the inserted rows and leave the table in agreement with the join |
| `Projection.RekeyKeeps` | migrations/versions/0010_bounded_query_paths.py:265-320 | the row triggers select the columns anew for a moved row |
| `Projection.MatchKeeps` | migrations/versions/0010_bounded_query_paths.py:324-363 | the match-insert trigger brings all rows of newly matched items to the new join |
| `Projection.ReprojectKeeps` | migrations/versions/0010_bounded_query_paths.py:366-477 | the match-update trigger brings all rows of affected items to the new join |
| `Projection.ClearKeeps` | migrations/versions/0010_bounded_query_paths.py:480-517 | one deferred event makes one more item agree, whether it was matched again or not |
| `Projection.MoveKeeps` | migrations/versions/0010_bounded_query_paths.py:520-541 | the retailer trigger follows an item to its new retailer |
| `Projection.LookupUpdated` | migrations/versions/0010_bounded_query_paths.py:368-399 | items outside the affected set keep their product over a match update |
| `ProjectionStore.ProjectsExactly` | migrations/versions/0010_bounded_query_paths.py:480-517 | agreement with nothing pending is the same as all three tables being the join |
| `ProjectionStore.Backfill` | migrations/versions/0010_bounded_query_paths.py:71-168 | whatever the batch size, the keyset loop ends with every row joined |
| `ProjectionStore.Database.InstallColumns` | migrations/versions/0010_bounded_query_paths.py:71-168 | after the three backfills all three tables are the join |
| `ProjectionStore.Database.Insert` | migrations/versions/0010_bounded_query_paths.py:174-261 | an insert into any of the tables keeps agreement |
| `ProjectionStore.Database.RekeyRows` | migrations/versions/0010_bounded_query_paths.py:265-320 | moving rows to other items keeps agreement |
| `ProjectionStore.Database.InsertMatch` | migrations/versions/0010_bounded_query_paths.py:324-363 | inserting matches keeps agreement |
| `ProjectionStore.Database.UpdateMatch` | migrations/versions/0010_bounded_query_paths.py:366-477 | updating matches, swaps included, keeps agreement |
| `ProjectionStore.Database.DeleteMatch` | migrations/versions/0010_bounded_query_paths.py:511-517 | deleting matches only queues one deferred event each; just the rows of those items may lag |
| `ProjectionStore.Database.MoveItem` | migrations/versions/0010_bounded_query_paths.py:520-541 | changing items' retailers keeps agreement |
| `ProjectionStore.Database.FireDeferred` | migrations/versions/0010_bounded_query_paths.py:480-517 | running the deferred events leaves all three tables equal to the join |
| `ProjectionStore.Database.Execute` | migrations/versions/0010_bounded_query_paths.py:174-543 | a statement is applied with its triggers exactly when the constraints admit it and, if it passes through a duplicate on the way, the row-by-row check did not trip over it; agreement holds inside the transaction |
| `ProjectionStore.Database.Transact` | migrations/versions/0010_bounded_query_paths.py:174-543 | every transaction, committed or rolled back, ends with the columns equal to the join over what its statements alone produce |
| `ProjectionStore.Database.RunTransactions` | migrations/versions/0010_bounded_query_paths.py:71-543 | and so does every history of transactions |
| `Staging.GreedyStaysAhead` | src/makolet/application/ingestion.py:848-864 | greedy batches of a suffix are never more than the batches of any cut of the whole |
| `Staging.GreedyIsOptimal` | src/makolet/application/ingestion.py:848-864 | no cut into consecutive batches within both limits has fewer batches |
| `Staging.UnitsAreRows` | src/makolet/application/ingestion.py:1151-1156 | the row limit counts exactly the rows the repository writes: one for the record, one per item and club, and one per store the promotion lists or comes from, however often it is named; the memory limit counts 512 bytes for each |
| `Staging.ChargeByShape` | src/makolet/application/ingestion.py:1176-1193 | a text grows by four bytes a character and a decimal by four a digit, an integer by its bytes; a container costs what its parts cost wherever they stand, and no part costs as much as the whole |
| `Staging.IssueBytesMean` | src/makolet/application/models.py:26-30 | validation evidence is 64 bytes an issue and its texts, over exactly the issues |
| `Staging.Distinct` | src/makolet/domain/models.py:336-340 | the stores of a promotion are related once each, and none is missing |
| `Staging.SummariesCombine` | src/makolet/application/ingestion.py:1122-1135 | combining the summaries of two parts is the summary of both |
| `Staging.StageEvents` | src/makolet/application/ingestion.py:1256-1289 | the counting loop computes the summary of its events |
| `Staging.FlushBatch` | src/makolet/application/ingestion.py:772-789 | a flush appends the batch and its summary, or fails and changes nothing |
| `Staging.TakeEvent` | src/makolet/application/ingestion.py:841-864 | taking one event keeps every batch non-empty, within limits and greedy |
| `Staging.ParseAndStage` | src/makolet/application/ingestion.py:772-866 | a staged file's batches concatenate to its events, write at least one row and at most the row limit, fit the memory limit, are as few as possible and summarise the file; a file is quarantined only if it breaks a limit; a stopped run leaves whole batches that are a prefix |
| `Lifecycle.ServedIsAllowed` | src/makolet/domain/enums.py:75-154 | every change the service makes is in the table, and the table has no edge from the retryable failure to itself |
| `Lifecycle.NeverLeft` | src/makolet/domain/enums.py:139-143 | no terminal status is followed by another |
| `Lifecycle.CompletedPath` | src/makolet/application/ingestion.py:962-1028 | a completed file was parsed, staged, validated and applied consecutively, from archived or from a retry |
| `Lifecycle.SourceFile.Transition` | src/makolet/adapters/persistence/ingestion.py:297-387 | the guarded change happens only from an expected status along the table; its callers ask for nothing outside the table except the one known edge, for completion only when it is earned, and for processing only with archived bytes |
| `Lifecycle.SourceFile.RecordArchive` | src/makolet/adapters/persistence/ingestion.py:389-501 | only a downloading file becomes archived, and then it has its bytes |
| `Lifecycle.SourceFile.DownloadAndArchive` | src/makolet/application/ingestion.py:587-746 | from discovered or a retry it archives; from any other status it conflicts and changes nothing; if every transfer fails it has made as many as are retried and raises the last one's error, with the file still downloading; an unknown exception after bytes were moved counts as unreachable storage |
| `Lifecycle.SourceFile.StageAndValidate` | src/makolet/application/ingestion.py:748-980 | reaching the gate means finalised staging, no quarantine issue and an acceptable rejection fraction; without faults it is reached exactly when what the parse found is accepted |
| `Lifecycle.SourceFile.Gate` | src/makolet/application/ingestion.py:969-980 | the gate opens exactly if validation finds nothing to quarantine and the rejected fraction is acceptable |
| `Lifecycle.AcceptedExactly` | src/makolet/application/ingestion.py:971-980 | acceptable means nothing rejected, or something accepted and at most the fraction of all records rejected |
| `Lifecycle.SourceFile.ParseValidateApply` | src/makolet/application/ingestion.py:748-1028 | without faults it completes exactly when the gate passes; a replay leaves the status alone |
| `Lifecycle.SourceFile.RecordFailure` | src/makolet/application/ingestion.py:1047-1108 | terminal files are left alone; otherwise a bad document whose bytes are archived is quarantined, any other retryable error of the service leaves the file to be tried again, and everything else ends it; without a fault of its own recording fails exactly when a retryable failure meets a retryable failure |
| `Lifecycle.SourceFile.IngestFile` | src/makolet/application/ingestion.py:184-305 | the outcome from every status when nothing fails, in terms of what the parse found, including terminal failure of a file caught in the middle; a download whose transfers all fail leaves the file to be tried again if the last error is retryable and ends it otherwise; a file that failed retryably and whose verification fails retryably again raises an invalid transition instead and stays; a cancelled parse leaves the file parsing; invariant in every other case |
| `Lifecycle.SourceFile.IngestAgain` | src/makolet/application/ingestion.py:184-305 | after a download that failed retryably, an ingestion in which nothing fails completes the file exactly when its parse is accepted and quarantines it otherwise; after any other failed download it stays ended |
| `Lifecycle.MaskedFailure` | src/makolet/application/ingestion.py:1047-1084 | at a concrete input, a second retryable failure surfaces as an invalid transition |
| `Lifecycle.LeftInTheMiddle` | src/makolet/application/ingestion.py:756-761 | at a concrete input, a parse is cancelled and the next ingestion fails the file for good |
| `Lifecycle.SourceFile.ArchiveFile` | src/makolet/application/ingestion.py:329-434 | archiving ends archived or already completed, and never completes a file |
| `Lifecycle.SourceFile.ReplayFile` | src/makolet/application/ingestion.py:487-554 | a replay never changes the status and succeeds only on archived bytes |
| `Lifecycle.SourceFile.RecoverStale` | src/makolet/adapters/persistence/operations.py:142-183 | a job still where it was seen goes back for a retry; anything else is left alone |
| `Lifecycle.SourceFile.Serve` | src/makolet/application/ingestion.py:184-554 | in every run of operations, failing anywhere, terminal statuses are final and a completed file had its bytes archived and its parse finalised, clean, within the rejection limit and applied |
| `Buckets.UpsertTwice` | migrations/versions/0011_resource_probe_budgets.py:511-534 | upserting two disjoint batches one after the other is upserting both at once |
| `Buckets.BackfillCharges` | migrations/versions/0011_resource_probe_budgets.py:480-545 | whatever the batch size, the keyset loop equals one grouped upsert of the eligible rows |
| `Buckets.BackfillBuckets` | migrations/versions/0011_resource_probe_budgets.py:374-426 | the whole backfill equals one GROUP BY per table |
| `Buckets.WindowIsComplete` | migrations/versions/0011_resource_probe_budgets.py:449-462 | every row of a bucket in the window was eligible for the backfill |
| `Buckets.BytesAreSum` | migrations/versions/0011_resource_probe_budgets.py:511-534 | the bytes of a set of rows are the sum of each row's own |
| `Buckets.BucketCells` | migrations/versions/0011_resource_probe_budgets.py:372-426 | each of a bucket's four columns is what its own observations, transfers and archived objects amount to |
| `Buckets.WindowIsExact` | migrations/versions/0011_resource_probe_budgets.py:449-477 | every windowed column (bytes, identities, attempts, successes) is exactly what the rows whose bucket is in the window amount to |
| `Buckets.WindowNeverUnderCounts` | migrations/versions/0011_resource_probe_budgets.py:449-477 | no windowed column is below its exact trailing 24 hours, and none reaches more than five minutes beyond |
| `Worker.Scheduler.constructor` | src/makolet/application/worker.py:302-313 | the schedule starts with nothing pending; an immediate source is due at once, any other after its interval and at most its jitter |
| `Worker.Scheduler.TickAt` | src/makolet/application/worker.py:339-350 | one pass enqueues exactly the due sources that are not pending, in schedule order, as far as there is room, and records when |
| `Worker.Scheduler.BeginRun` | src/makolet/application/worker.py:394-418 | an idle consumer takes the queue's head and marks it in flight |
| `Worker.Scheduler.AnnounceRun` | src/makolet/application/worker.py:396-418 | a failed announcement kills the consumer, releases the source and leaves it shown in flight with nobody at it; the history records an abandoned start |
| `Worker.Scheduler.FinishRun` | src/makolet/application/worker.py:437-473 | the health written from the snapshot taken at the start is the right one |
| `Worker.Scheduler.ReportRun` | src/makolet/application/worker.py:394-400 | after the report the source is released and its task counted as done exactly once |
| `Worker.Scheduler.CancelConsumer` | src/makolet/application/worker.py:421-436 | what a cancellation does at each await, an abandoned start included |
| `Worker.Scheduler.Perform` | src/makolet/application/worker.py:339-484 | each step keeps the invariant and adds to the history exactly what it logs in the state it met |
| `Worker.Scheduler.Interleave` | src/makolet/application/worker.py:339-484 | in every interleaving pending is the disjoint union of queued and in-flight sources, bounded by capacity plus concurrency and equal to the unfinished count, enqueues of a source are at least its interval apart, runs never overlap, the histories are what the steps logged in the states they met, health says of them what the events alone say, and a source is shown in flight if and only if a consumer is at it or its last start was abandoned |
| `Worker.FinishedSummary` | src/makolet/application/worker.py:437-472 | updating the counters by one outcome is counting that outcome |
| `Worker.SummaryMeans` | src/makolet/application/worker.py:437-472 | counts are numbers of events, consecutive failures are those no success follows, each time is that of the last event of its kind, and the error is what the last outcome left |
| `Worker.InFlightIsExact` | src/makolet/application/worker.py:415-436 | a consumer is at a source if and only if the last entry of its history is a start; the health table is right about every source if and only if no history ends in an abandoned start |
| `Json.Sorted` | scripts/check_sbom.py:258-263 | the keys, each once, in ascending order of code points |
| `Json.CompactInjective` | scripts/check_sbom.py:258-263 | equal compact texts are texts of equal values, so sorting by text is sorting by value |
| `Json.ReadsOnce` | scripts/check_sbom.py:258-263 | a value's compact text followed by a separator can be read in one way only |
| `Sbom.CanonicalDecides` | scripts/check_sbom.py:253-264 | canonical forms are equal if and only if the documents are equal up to reordering arrays at any depth |
| `Sbom.CanonicalIsSame` | scripts/check_sbom.py:253-264 | a document is its canonical form, reordered |
| `Sbom.CanonicalIdempotent` | scripts/check_sbom.py:253-264 | canonicalising twice is canonicalising once |
| `Sbom.DifferenceIsReal` | scripts/check_sbom.py:286-334 | the first difference is none exactly for equal values, and otherwise names a path where they differ |
| `Sbom.DifferenceIsFirst` | scripts/check_sbom.py:286-334 | the reported path is the first: there the documents clash themselves, and on every path before it, in key and index order, they agree |
| `Sbom.ComparisonIsExact` | scripts/check_sbom.py:253-334 | the comparison finds no difference exactly when the documents are equal up to reordering |
| `Sbom.RuntimeComparisonIsExact` | scripts/check_sbom.py:267-342 | the runtime comparison finds no difference if and only if some other values for the platform properties make the documents equal up to reordering |
| `Manifest.PrettyDeeper` | deployment/archive_backup.py:1206-1207 | printing a value one level deeper adds two bytes per line break and nothing else |
| `Manifest.NestedIsExact` | deployment/archive_backup.py:1319-1325 | counting four spaces per line of the entry printed alone gives its exact size inside the document |
| `Manifest.PayloadGrows` | deployment/archive_backup.py:1325-1328 | one more entry adds its nested size plus four bytes for the first and two for later ones |
| `Manifest.LayoutIsAll` | deployment/archive_backup.py:1206-1207 | without the spaces and line breaks outside strings the indented text is the compact one |
| `Manifest.PayloadTells` | deployment/archive_backup.py:1206-1207 | so the payload is the text of exactly one value, and that value has the header's four members and lists exactly the objects, in order, by key, digest and size |
| `Manifest.OnlyGrows` | deployment/archive_backup.py:1328-1337 | inventories that do not fit at some point never fit later |
| `Manifest.BoundedManifest` | deployment/archive_backup.py:1266-1341 | success if and only if both inventories are the same strictly ordered sequence within all limits; then the counted bytes are the exact length, the payload tells the header and the inventory and nothing else, and the inconsistency error is unreachable |
| `Base64Url.RoundTrip` | src/makolet/application/queries.py:557-558 | decoding an unpadded encoding gives the bytes back |
| `Base64Url.EncodesBits` | src/makolet/application/queries.py:557-558 | the text spells the bits of the bytes from the most significant on, six to a character, with zeros where bits are missing |
| `Base64Url.EncodesVectors` | src/makolet/application/queries.py:557-558 | a test vector of section 10 of RFC 4648, the digits and the two alternative characters |
| `Base64Url.CanonicalIsTheCode` | src/makolet/application/queries.py:557-558 | any decodable text is the encoding of what it decodes to if and only if it is unpadded, uses the URL alphabet and has no stray bits |
| `Base64Url.DecodesAlike` | src/makolet/application/queries.py:557-558 | padding, a stray bit and a standard-alphabet character each give a second text for one body |
| `Cursor.BindFits` | src/makolet/application/queries.py:596-620 | a position can be bound exactly when it is legal and its body takes at most 332 bytes |
| `Cursor.BoundCursor` | src/makolet/application/queries.py:539-620 | a bound cursor gives back its position and state under its own scope and state keys, and is invalid under any other route, fingerprint or keys |
| `Cursor.AcceptedIsSealed` | src/makolet/application/queries.py:539-593 | any accepted cursor is the prefix, a body and that body's own digest, within 512 characters, and the body names this route, these filters, the position and exactly the expected state |
| `Cursor.SameWindow` | src/makolet/application/queries.py:490-512 | a page reached by a cursor has the window of the page that gave it, whatever the clock says |
| `Cursor.FirstWindow` | src/makolet/application/queries.py:479-518 | the first page's window is the requested one, or else the smaller of the default and the largest span up to now; the page is refused exactly if that window is empty, too wide or too early, or its position cannot be bound |
| `Cursor.WalkKeepsWindow` | src/makolet/application/queries.py:253-293 | every page of a history walk uses the first page's window, the one asked for |
| `Cursor.FaithfulExists` | src/makolet/application/queries.py:596-620 | the assumption on the JSON library can be met: the compact printer read back is such a codec |
| `Cursor.ExactExists` | src/makolet/application/queries.py:623-633 | the assumption on timestamps can be met |
| `Rebuild.PendingIsNext` | src/makolet/adapters/persistence/maintenance.py:394-430 | the page of pending files starts right after the last checkpoint and has no gaps |
| `Rebuild.FoldMeans` | src/makolet/application/maintenance.py:203-208 | the uninterrupted rebuild replays each file and then bootstraps its catalogue entries, in sequence |
| `Rebuild.OnTrackReplay` | src/makolet/application/maintenance.py:205-211 | a replay or bootstrap that took effect before an interruption leaves the file's work with the same result |
| `Rebuild.Rebuilder.CompleteFile` | src/makolet/adapters/persistence/maintenance.py:432-472 | a file is checkpointed only in sequence and after its replay and bootstrap |
| `Rebuild.Rebuilder.Finish` | src/makolet/adapters/persistence/maintenance.py:498-521 | the run completes only when no file is pending |
| `Rebuild.Rebuilder.Drive` | src/makolet/application/maintenance.py:186-222 | the page loop ends, loses no checkpoint and completes when nothing fails |
| `Rebuild.Rebuilder.Resume` | src/makolet/application/maintenance.py:168-240 | resuming continues an active run and leaves a completed one alone |
| `Rebuild.Rebuilder.ResumeRepeatedly` | src/makolet/application/maintenance.py:168-240 | interrupted at any points and resumed any number of times, a completed rebuild has the state of the uninterrupted fold over its files |
| `Catalog.CompareSymmetric` | src/makolet/domain/catalog.py:254-329 | both directions of a comparison agree in rule, disposition and confidence |
| `Catalog.AutoConfirmedExactly` | src/makolet/domain/catalog.py:259-281 | automatic confirmation, full confidence and a GTIN shared across retailers are equivalent |
| `Catalog.ConfidenceBounds` | src/makolet/domain/catalog.py:259-304 | confidence lies between 0 and 1, and at most 0.99 for a structured match, which reaches the threshold; a shared GTIN inside one retailer gives 0.98, another shared identifier 0.95 |
| `Catalog.AgreementRaises` | src/makolet/domain/catalog.py:307-326 | agreeing on brand adds 0.20, on manufacturer 0.15, on quantity and unit 0.20, on packaging 0.05, and the tokens four tenths of their similarity |
| `Catalog.ConflictLowers` | src/makolet/domain/catalog.py:327-329 | conflicting GTINs take 0.25 off, down to zero; other identifiers change nothing |
| `Catalog.SimilarityMeans` | src/makolet/domain/catalog.py:393-399 | the similarity is the part of all distinct tokens that both names have |
| `Catalog.Quantized` | src/makolet/domain/catalog.py:294-294 | rounded to the nearest thousandth, halves to even |
| `Catalog.GenerateMatchCandidates` | src/makolet/domain/catalog.py:224-251 | the bounded loop returns the ordered matches of the block, and refuses exactly bad bounds |
| `Catalog.OrderDoesNotMatter` | src/makolet/domain/catalog.py:239-251 | blocks of the same distinct items give the same ordered matches |
| `Capacity.Storage.CheckAt` | src/makolet/adapters/filesystem_capacity.py:123-142 | the lease is granted exactly when the reserve survives the whole write; otherwise both locks are released |
| `Capacity.Storage.Leave` | src/makolet/adapters/filesystem_capacity.py:126-137 | every way out releases what was acquired, once |
| `Capacity.Storage.FinishAt` | src/makolet/adapters/filesystem_capacity.py:81-86 | the check after the write never finds the floor crossed |
| `Capacity.Storage.Interleave` | src/makolet/adapters/filesystem_capacity.py:72-142 | in every interleaving of cooperating writers the free space stays at or above the floor, one writer at most has the lease, and an absent writer's acquisitions and releases balance |
| `Capacity.Lease.Release` | src/makolet/adapters/filesystem_capacity.py:30-43 | however often it is called, descriptor and lock are given back once, also when closing fails |
| `FtpControl.NeverRecovers` | src/makolet/adapters/ftp_control.py:94-143 | no sequence of charges lowers the account, so an exhausted budget stays exhausted |
| `FtpControl.Accounted` | src/makolet/adapters/ftp_control.py:142-143 | the account is the larger of the wire's bytes and the two channels' together |
| `FtpControl.Budget.AcceptControlLine` | src/makolet/adapters/ftp_control.py:94-118 | a line is counted even when refused, by exactly its bytes and one line, and accepted exactly within all five limits |
| `FtpControl.Budget.ChargeAll` | src/makolet/adapters/ftp_control.py:94-143 | once the total was exceeded no later charge on any channel is accepted |
| `FtpControl.OneReply` | src/makolet/adapters/ftp_control.py:158-184 | a stream starts with at most one reply as the reader frames it |
| `FtpControl.StrippedOnce` | src/makolet/adapters/ftp_control.py:197-202 | one line ending is taken off a line, and only one |
| `FtpControl.LineOnWire` | src/makolet/adapters/ftp_control.py:187-215 | a line is charged what it was on the wire, where every line ends in CR LF |
| `FtpControl.JoinedSplits` | src/makolet/adapters/ftp_control.py:176-184 | the text of a reply is its lines with a break between two of them |
| `FtpControl.OneStandardReply` | src/makolet/adapters/ftp_control.py:158-184 | a stream starts with at most one reply as section 4.2 of RFC 959 frames it |
| `FtpControl.StandardTaken` | src/makolet/adapters/ftp_control.py:176-184 | the reader takes a standard reply whole if and only if no line inside it carries the code without a space or hyphen |
| `FtpControl.TakenStandard` | src/makolet/adapters/ftp_control.py:176-184 | what the reader takes is a standard reply if and only if its first line has a code and a space or hyphen and its last line a space |
| `FtpControl.FramingsDiffer` | src/makolet/adapters/ftp_control.py:176-184 | a three-line standard reply the reader ends early, and a line without a code that it takes for a reply |
| `FtpControl.GetMultiline` | src/makolet/adapters/ftp_control.py:158-184 | returns exactly the lines up to the reader's first end of reply if they fit every limit and fails otherwise, reads at most one line more than the reply limit, charges exactly what it read; and returns a stream's reply in the sense of section 4.2 of RFC 959 if and only if it fits and no line inside it carries the code without a space or hyphen |

## Left out

- PostgreSQL repositories, HTTP, FTP and S3 transport, parsers and `domain/normalization.py`: they are oracles here, with the guards of `transition`, `record_archive` and the rebuild tables modelled where a theorem needs them.
- `composition.py`, `config.py`, the command line, API and MCP wiring, observability, metrics, log events and error texts: plumbing.
- UUIDs, SHA-256 and HMAC: identifiers are numbers, a checkpoint is named by its scope, a digest is a function.
- Day windows in the reference store: like the code, it never expires them; the sliding window is in `Buckets`.
- Concurrent attempts on one source: one running attempt per source, as the source lease ensures.
- `observe_attempt` and the processed and duplicate deltas of the attempt record: statistics nobody reads back.
- ProjectionStore.Database.Transact: transactions are serial; under READ COMMITTED a row insert and a match insert in two open transactions can each miss the other's row, which the triggers alone do not repair.
- Statements that combine inserts and updates through ON CONFLICT in the projection: they are sequences of the modelled statements; primary keys are numbers in key order.
- Validation summaries, trimming of legacy evidence and the batched copy of identity observations in migration 0011: further keyset loops of the modelled kind.
- The charge columns' numeric types in migration 0011, and what happens when the table changes during the backfill: the migration runs in one transaction.
- `Worker.run_once`, heartbeats, stale-recovery timing and the shutdown deadline; a tick and a cancellation may come at any time instead, which covers more interleavings.
- Staging: the charges of container fields follow the value's shape; Python object identity and sharing are not modelled.
- JSON numbers are the tokens Python prints, so negative zero and zero differ and non-finite numbers do not occur; strings are sequences of Unicode scalar values, so lone surrogates do not occur.
- Sbom: document validation and the component counts compared afterwards.
- Manifest: page handling and metadata checks of the S3 listing, and the inventory query's own identical size bound, which is implied by the manifest's.
- Collection.Collect: its favoured case asks that the next file is not terminal while a retry boundary is pending, because that one file is then retried with nothing reserved and may be refused; bytes are charged at the full reservation for every transfer ahead.
- Cursor: `json` is taken to read back the payloads it wrote, the timestamp text likewise, and the filters' fingerprint is any function of the request; forging a cursor is not modelled.
- Rebuild: `begin_rebuild`'s selection, snapshots and equivalence checks; replay is atomic, and idempotence of one file's work is assumed of the effects, as the service itself does.
- Catalog: token splitting and text normalisation, explanation texts, scoring against canonical products; `Decimal` division is exact.
- Capacity: Windows locking, lock-file inspection, process crashes and writers that do not cooperate.
- FtpControl: TLS pumping and sockets; the encoded size of a line is a parameter.
- `replay_range`, retention, seeding, benchmarks, licence, container and documentation checks: they would only add easy members.
- Collection.CollectRepeatedly: states that a closed generation is whole but not the converse, which is false; `Listing.OpenButExhausted` and `Collection.Collect` say when.
- Lifecycle.SourceFile.DownloadAndArchive: byte allowances are left to `Download`; only the order of status changes is modelled.
- Worker.Scheduler.Interleave: does not say that a due source is eventually run, because nothing bounds how long an ingestion takes.
