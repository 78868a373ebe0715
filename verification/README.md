# Verified model of the book data pipeline

A Dafny model of the parts of the pipeline whose promises span many functions and many runs: the
idempotent catalogue loader, the completion of a streaming run, resumable discovery, and three
arithmetic kernels. `dafny verify dfyconfig.toml` checks all of it.

## What is modelled

**The catalogue loader.** `Merge` ranks the records attached to a book and blends them. `Series` and
`Catalogue` describe, as functions over the tables, what loading one record does: find, create,
promote or merge a book, store the provenance row, replay every payload attached to the book,
rewrite its canonical columns, link authors, subjects and series. `Loader` is the loader as it runs:
classes whose fields are the tables, methods that issue one statement after another, cascades on
delete, rollback and retry, counts added only on commit; each method is proved equal to the function
that describes it. What those functions promise is then proved of them:

- `Ranking`: who a merged record takes each field, list and identity from, said without the sort key.
- `Shelving`: what each series link, row and account holds after a sync, and the text a book is found by.
- `BookRows`: what every column and link of a book holds after a load, in terms of the records stored for
  it, and when `updated_at` moves.
- `CatalogueProofs`: one load keeps every key unique, every reference valid, and every book equal to the
  merge of its payloads under its own identity, just after promotions and merges too.
- `Reload`: exactly when a load changes nothing, and exactly when it moves `updated_at`.
- `History`, `Confluence`: conservation over any list of loads, independence of order, repetition,
  unification followed by loading.
- `Redelivery`: exactly when loading a batch a second time changes nothing, whatever the batch repeats and
  the catalogue held before, and two pairs of records that change it every time.
- `Rerun`, `StaleText`: exactly when a second run is a no-op down to `updated_at`, and two records for
  which it is not.

**The completion of a run.** `Ledgers` and `Markers` hold run status, frozen topologies and observed
boundaries. `RunProtocol` is a state machine over partitioned logs, committed offsets, any number of
transform and load consumers, crashes at any point, reassignment (two consumers may hold one
partition at once) and redelivery; a transaction counts its own marker row and any subset of the
others, which is what a read-committed transaction may see. `RunSafety` proves that a run marked
`success` has every record published for it in the catalogue or parked. `RunRecovery` proves that from
every reachable state the consumers alone can still finish a run that was handed over. `RunWitness` takes
one run through a crash of either consumer, an unusable record and duplicates to success. `Transform` and
`Consumers` are the two consumers' loops as classes, proved against one-at-a-time loading; the
methods that commit an offset demand, as preconditions, that the effects came first.

**Resumable discovery.** `Discovery` and `ExportDiscovery` are the two readers' loops and what a whole
schedule of capped passes covers.

**Kernels.** `Roman`, `Isbn`, and in `Goodreads` the circuit breaker, the retry loop and the token bucket.
ISBN arithmetic follows ISO 2108 (check digit: Annex C of ISO 2108:2005).

## How the outside world appears

- `map_payload` followed by `canonicalise` is an arbitrary pure partial function: a payload carries what
  each source's mapper would make of it (`Domain.Replay`). A payload *maps* when it replays to a record
  with the source and id it is stored under and its series ids are confirmed, as every mapper produces
  them (src/pipeline/extract/goodreads.py:735-747, src/pipeline/extract/goodreads.py:835-840,
  src/pipeline/extract/goodreads_parsers.py:501-507); canonical invariants are stated for catalogues of
  such payloads, because `_recompute` returns early without candidates.
- SHA-256 is injective and never the empty string: a digest is the value it digests.
- A row's surrogate id is its unique key, except for books, whose ids are numbers handed out in turn.
  A series name carries the display and comparison form that the search projection derives from it.
- Clocks are counters: `touched` counts writes of a book's `updated_at`, `closed` those of a run's
  `processing_ended_at`.
- Deadlocks, provider answers, clock readings and crashes are parameters or free choices.
- The run protocol assumes per-partition order, resumption from the committed offset, well-formed
  events, all raw events of a run flushed before its boundary is written, and topics with at least one
  partition and exactly the frozen number of them.

## What the code does not do

- *Re-running identical input is not always a no-op.* The books table promises that the content hash
  makes a re-run a no-op (src/pipeline/models/db.py:102-103). When a confirmed series absorbs an inferred
  one, books other than the one being loaded keep their old search text; reloading such a book puts it
  back on an inferred row and rewrites its text and `updated_at`.
  `StaleText.SecondRunIsNotAlwaysANoOp` gives two records; `Reload.ReloadTouchesExactlyWhen` says exactly
  when one reload moves it and `Rerun.SecondRunMovesNoBookExactlyWhen` exactly when a whole second run
  does; `Rerun.SecondRunIsANoOp` proves the promise when sources spell each series one way.
- *A replayed batch does not always load as unchanged.* The tallies rest on a redelivered batch loading
  to "unchanged" by construction (src/pipeline/observability/markers.py:157-160), with duplicates from task
  retries expected (src/pipeline/models/events.py:127-128). It fails in two ways. Two records that share a book and
  carry different ISBNs nobody else owns each promote it in turn, on every delivery: its ISBN, identity,
  columns and `updated_at` move and the run is credited twice more (`Redelivery.RedeliveryCanCount`). Two
  payloads under one key each put their own facts back when both come again (`Redelivery.RetitlingCounts`
  from an empty catalogue, `Redelivery.RetitlingExists` for such a pair). The exact condition, for any batch
  into any catalogue, is that no two of its records left on one book carry different ISBNs and no payload,
  at its turn, alters what its book says (`Redelivery.SecondPassCounts`,
  `Deliveries.RedeliveryAddsNothingExactlyWhen`); one payload a key never alters anything
  (`Redelivery.SecondPassIsQuietExactlyWhen`). No row moves at any step of the second pass exactly when
  no key comes with two payloads and no book with two ISBNs (`Redelivery.NoStepMovesARowExactlyWhen`).
  Records under new keys, each delivered as one record however often, meet both
  (`Redelivery.NewKeysShareAnIsbn`).
- *A run's final figures are exact only if no load consumer dies.* The tally module promises exact final
  figures (src/pipeline/services/load_consumer.py:55-58), but a process that dies after committing offsets
  takes its unwritten counts with it, and what it wrote but had not counted is unchanged when redelivered.
  `Consumers.ARowFallsShort` is such a death: a batch size of one, two new records, a kill between them, and
  a row that says nothing was loaded. `Consumers.RowIsExactExactlyWhen` gives the shortfall exactly: the row
  is exact if and only if nothing of the run was waiting in memory and the batch in hand had changed nothing
  for it; the shortfall never exceeds 24 and one batch, and a row never claims too much.
  `Consumers.LoadConsumer.Run` puts every death in that form, a refused load or a kill between any two
  effects of a delivery, and `Consumers.Serve` adds the deaths up over any number of processes.
- *A load can abort on its own foreign key*, a latent limit that no shipped mapper reaches. The series ids
  collected before the second loop of `_sync_series` may belong to a row a later membership has absorbed.
  `SeriesProofs.SyncCanFail` gives two accounts that abort, `SeriesProofs.SyncFailsExactlyWhen` the exact
  condition.
- *The export reader can emit a record twice.* Its comment says it resumes where the last run stopped, but
  the saved position is `start + written`, which falls short when an unusable record was skipped.
  `ExportDiscovery.OnceExactlyWhenWhole` is the exact condition, `ExportDiscovery.HoleEmitsTwice` an input.
- *A cap of zero forgets the position* in the dump reader (`Discovery.CapZeroForgets`); callers treat zero
  as "use the default", so it does not arise.
- *The token bucket grants early when a sleep returns early*: `Goodreads.SpacedExactlyWhen`, and two requests in
  `Goodreads.EarlySleepGrantsEarly`.
- *Counting rows is only as good as the rows*: a marker outside the frozen range would complete a topic
  (`Ledgers.StrayMarkerMisleads`), so the protocol's markers are addressed to existing partitions.

## Model

| member | source | states |
|---|---|---|
| Merge.RankTotal | src/pipeline/transform/canonicalise.py:164-171 | any two records can be ranked against each other |
| Merge.RankAntisymmetric | src/pipeline/transform/canonicalise.py:164-171 | only records with the same source and id tie |
| Merge.RankTransitive | src/pipeline/transform/canonicalise.py:164-171 | ranking is transitive, so it is a strict total order on distinct ingestion ids |
| Merge.FirstValue | src/pipeline/transform/canonicalise.py:231-238 | the inner loop finds the value of the best-ranked record that has the field |
| Merge.ResolveByLoops | src/pipeline/transform/canonicalise.py:231-238 | the nested loops resolve exactly the fields that some record has, each to its best-ranked value |
| Merge.MergeByLoops | src/pipeline/transform/canonicalise.py:174-264 | the loops, error branches included, compute the specified merge |
| Merge.MergeIsOrderFree | src/pipeline/transform/canonicalise.py:164-264 | every permutation of candidates with distinct ingestion ids gives the same merge or the same refusal |
| Merge.MergedFieldHasTheBestAnswer | src/pipeline/transform/canonicalise.py:231-238 | a field is null only if null in every candidate, and otherwise holds the answer of a candidate no other answering candidate outranks |
| Merge.MergedSeriesKeepsEvidence | src/pipeline/transform/canonicalise.py:247-252 | the result holds a confirmed series if and only if some candidate does; its list is that of the best-ranked candidate with a confirmed one, failing that of the best-ranked with any |
| Merge.MergedListsComeWhole | src/pipeline/transform/canonicalise.py:242-246 | credits and subjects are each one candidate's own list, that of the best-ranked candidate that has any |
| Merge.MergeRefusesExactlyWhen | src/pipeline/transform/canonicalise.py:202-229 | without a target, merging is refused exactly for no candidates, two ISBNs, or no ISBN and two identities |
| Merge.UnifyRefusesExactlyWhen | src/pipeline/transform/canonicalise.py:286-309 | unification is refused exactly when two observations carry different ISBNs |
| Merge.UnifyIsOrderFree | src/pipeline/transform/canonicalise.py:286-309 | the identity chosen is one of the observations' own and does not depend on their order |
| Ranking.RankMeans | src/pipeline/transform/canonicalise.py:159-171 | one record ranks before another exactly when it has more filled fields, or as many from a source earlier in the fixed order, or the same source and a smaller id |
| Ranking.MergedFieldIsTheForemosts | src/pipeline/transform/canonicalise.py:228-238 | each field is that of the candidate with an answer that no other with an answer outdoes in filled fields, source order and id |
| Ranking.MergedRecordIsTheForemosts | src/pipeline/transform/canonicalise.py:228-255 | the record keeps the source and id of the candidate nobody outdoes |
| Ranking.MergedListsAreTheForemosts | src/pipeline/transform/canonicalise.py:239-243 | credits and subjects are each those of the candidate with any that no other with any outdoes |
| Ranking.MergedSeriesIsTheForemosts | src/pipeline/transform/canonicalise.py:244-249 | series come from the foremost candidate that confirms one, and only failing that from the foremost with any |
| Ranking.MergedIdentityIs | src/pipeline/transform/canonicalise.py:202-229 | for any target: exactly when merging is refused, and otherwise the identity is the ISBN some candidate carries, else the target, else the one all share |
| Ranking.UnifiedIdentityIs | src/pipeline/transform/canonicalise.py:286-296 | observations are put on the ISBN one of them carries, else on the identity of the one nobody outdoes |
| Ranking.UnifyingKeepsFacts | src/pipeline/transform/canonicalise.py:298-309 | unifying changes identity and ISBN and nothing else a record says |
| Ingest.IngestReport.Sift | src/pipeline/ingest.py:162-170 | every observation is counted once, as clean or as rejected |
| Ingest.IngestReport.AccountFor | src/pipeline/ingest.py:138-183 | what goes on to the loader is each candidate's clean records, unified where possible; resolved, unresolved, attempts, observations and rejections are counted exactly |
| Ingest.NothingIsLostOrRenamed | src/pipeline/ingest.py:162-183 | every clean record goes on once, in order, under its own source and id |
| Ingest.OneIdentityExactlyWhen | src/pipeline/ingest.py:172-181 | one candidate's records share an identity exactly when no two carry different ISBNs |
| Ingest.CleanOnesAre | src/pipeline/ingest.py:162-170 | each clean observation is kept where it stands and a rejected one makes no difference |
| Series.BestIsOnePerSeries | src/pipeline/load/postgres.py:500-506 | the collapsed picks hold each mentioned series exactly once, each pick being one of the mentions |
| Series.BestPrefersEvidence | src/pipeline/load/postgres.py:500-506 | each pick is the first confirmed mention of its series, or the first mention when none is confirmed |
| SeriesProofs.ShelveRow | src/pipeline/load/postgres.py:508-511 | each series row, and the book's place on it, can be followed through the picks one series at a time |
| SeriesProofs.RowAfterTwice | src/pipeline/load/postgres.py:536-631 | shelving the same picks a second time leaves every series row as the first left it |
| SeriesProofs.SyncTwice | src/pipeline/load/postgres.py:491-534 | attaching the same accounts again changes no series row, no membership of the book and no search text |
| SeriesProofs.AbsorbKeepsForeignKeys | src/pipeline/load/postgres.py:557-631 | folding an inferred series away leaves every reference valid |
| SeriesProofs.AbsorbLosesNothing | src/pipeline/load/postgres.py:557-631 | folding loses no membership and no provenance row, blanks no position, withdraws no confirmation, and leaves nothing on the folded row |
| SeriesProofs.SyncKeepsForeignKeys | src/pipeline/load/postgres.py:491-534 | a sync that completes leaves every reference valid, whatever the sources said |
| SeriesProofs.SyncLosesNothing | src/pipeline/load/postgres.py:491-534 | attaching one book's series keeps every membership of every book, on its series or the one that absorbed it, with known positions and confirmations kept |
| SeriesProofs.RowMissingExactlyWhen | src/pipeline/load/postgres.py:508-531 | a pick's row is gone after shelving exactly when a later pick folds it away |
| SeriesProofs.SyncFailsExactlyWhen | src/pipeline/load/postgres.py:526-532 | attaching aborts exactly when an unconfirmed mention with an id was folded away by a later pick |
| SeriesProofs.SyncCanFail | src/pipeline/load/postgres.py:526-532 | two concrete accounts whose attachment aborts |
| SeriesProofs.EvidencedSyncCompletes | src/pipeline/load/postgres.py:526-532 | when every id is confirmed, attaching never aborts |
| Shelving.EveryMembershipIsMentioned | src/pipeline/load/postgres.py:500-506 | every membership of every candidate is considered, in order, under the source's confirmed id or else the name |
| Shelving.AbsorbedPlaces | src/pipeline/load/postgres.py:592-629 | where each membership of each book is after a fold, with the survivor's known position before the folded one's |
| Shelving.SyncPlacesEachPick | src/pipeline/load/postgres.py:715-740 | after a sync the book is on every series picked and not folded later, at the position stated, else the one it had, else the one a fold brought; confirmed exactly when one of these is |
| Shelving.SyncKeepsFirstName | src/pipeline/load/postgres.py:536-555 | a series row keeps its first name and takes the latest comparison form |
| Shelving.SyncLeavesOthers | src/pipeline/load/postgres.py:491-534 | no other series row and no other membership changes |
| Shelving.SyncRecordsAccounts | src/pipeline/load/postgres.py:678-713 | the last account each source gave under a series id is recorded as given, and no other account says anything new |
| Shelving.TextJoinsEveryForm | src/pipeline/transform/series.py:131-150 | the search text is one term for each comparison form, in order, each the least display of its form, a space apart |
| CatalogueProofs.MergeUnderIdentity | src/pipeline/load/postgres.py:921-938 | merging candidates put on one identity never refuses and keeps that identity and its ISBN |
| CatalogueProofs.PromotionIsIdentified | src/pipeline/load/postgres.py:294-305 | promoting to an ISBN nobody owns violates neither unique key |
| CatalogueProofs.MergeBooksIsSound | src/pipeline/load/postgres.py:310-374 | merging two books keeps keys unique and references valid |
| CatalogueProofs.FindHomeIsSound | src/pipeline/load/postgres.py:204-308 | finding a record's book keeps all keys and references, keeps every payload, and touches no book but the record's and one merged away |
| CatalogueProofs.LoadOneIsSound | src/pipeline/load/postgres.py:197-217 | any load that commits, of any record, keeps keys unique and references valid |
| CatalogueProofs.RecomputeSettles | src/pipeline/load/postgres.py:449-489 | a recomputation commits, changes only its book, and leaves it equal to the merge of its payloads |
| CatalogueProofs.LoadOneKeepsEverything | src/pipeline/load/postgres.py:197-217 | a mapped record always loads; every book still equals the merge of its payloads; no provenance row is lost; books change by inserted less merged; the record is counted once |
| CatalogueProofs.DownloadsAreGutendex | src/pipeline/load/postgres.py:466-471 | the download count is a Gutendex record's or absent |
| CatalogueProofs.CreditIsTheFirst | src/pipeline/load/postgres.py:791-799 | an author's name and position are those of the first credit in the first candidate that names them |
| BookRows.CandidatesInOrder | src/pipeline/load/postgres.py:424-447 | a book's stored records replay in order of source name, then source id |
| BookRows.LoadedRowsSay | src/pipeline/load/postgres.py:463-484 | after any mapped load, column by column: nine columns hold the answer of the stored record with one that no other with one outdoes, downloads the first Gutendex record's, the ISBN the identity's, and there is no other |
| BookRows.LoadWritesLinks | src/pipeline/load/postgres.py:784-912 | a load links every author credited and every subject of the foremost record with any; what was there is kept, and what is new has the first credit's name and position or the first form |
| BookRows.LoadCounts | src/pipeline/load/postgres.py:472-484 | a load counts an update exactly when a fingerprint other than a stub's changes, and moves updated_at once for a new fingerprint and once for a new search text |
| BookRows.MergeMovesLinks | src/pipeline/load/postgres.py:337-374 | author and subject links of every book after a merge, moved credits without their position |
| BookRows.MergeMovesRows | src/pipeline/load/postgres.py:337-374 | provenance moves to the survivor; the orphan's row, series links and accounts go; nothing else moves |
| BookRows.UnreadableIsAStub | src/pipeline/load/postgres.py:245-267 | a new record that no mapper reads leaves identity and title and nothing else |
| Reload.ReloadMovesOnlySeries | src/pipeline/load/postgres.py:284-306 | reloading a stored record goes no further than its book's series tables and search text |
| Reload.LoadChangesNothingExactlyWhen | src/pipeline/load/postgres.py:197-217 | a load changes no catalogue row exactly when its payload is already stored and its ISBN, if any, is its book's |
| Reload.ReloadTouchesExactlyWhen | src/pipeline/load/postgres.py:764-782 | a reload moves updated_at exactly when the stored search text is not that of the series it leaves the book on |
| Reload.LoadTwiceIsLoadOnce | src/pipeline/load/postgres.py:474-484 | the second of two loads in a row counts as unchanged and leaves every book, updated_at included, provenance, authors, subjects and series rows as they were |
| History.LoadAllInParts | src/pipeline/load/postgres.py:148-150 | loading two lists in turn is loading their concatenation, counts included |
| History.LoadAllKeepsEverything | src/pipeline/load/postgres.py:132-217 | over any list of loads: all commit, no provenance row is lost, books change by inserted less merges, and the three counts add up to the records |
| History.CreditsNames | src/pipeline/load/postgres.py:795-801 | the authors linked are exactly those some candidate names |
| History.NewKeyJoins | src/pipeline/load/postgres.py:231-267 | a record with a new key joins the book with its identity or starts one, and moves nothing else |
| History.NewKeysGather | src/pipeline/load/postgres.py:139-217 | records with new keys merge no books and each ends on the book with its identity; author links are the old ones and the credits |
| Confluence.LoadOrderDoesNotMatter | src/pipeline/load/postgres.py:139-217 | records with new keys, in any order, give the same books, columns, grouping of provenance and authors |
| Confluence.SecondPassChangesNothing | src/pipeline/load/postgres.py:284-306 | a second pass inserts, updates and merges nothing and leaves all but search text, its timestamp and the series tables alone |
| Confluence.ReloadAll | src/pipeline/load/postgres.py:197-217 | reloading any list of stored records changes no catalogue row and counts each as unchanged |
| Redelivery.LoadMoves | src/pipeline/load/postgres.py:204-308 | a load keeps together the provenance that was together, leaves the record's book with its ISBN, and moves neither ISBN nor provenance of any other book |
| Redelivery.PromotionCounts | src/pipeline/load/postgres.py:284-306 | a stored record whose ISBN nobody owns always counts as an update |
| Redelivery.QuietLoadOwnsNothingNew | src/pipeline/load/postgres.py:284-308 | a load of a stored record that inserts and updates nothing gives no book an ISBN nobody had |
| Redelivery.PassDelivers | src/pipeline/load/postgres.py:139-217 | after any batch, keys repeated or not, every key is stored and each record with an ISBN sits on a book whose ISBN is its own or that of a record loaded after it |
| Redelivery.InPlaceLoad | src/pipeline/load/postgres.py:284-306 | loading a record whose row is already on a book with its ISBN moves no row to another book and no ISBN, replaces its payload, and counts an update exactly when that alters what the book says |
| Redelivery.PassInPlace | src/pipeline/load/postgres.py:132-217 | over a batch of such records exactly the payloads that, at their turn, alter their book count, as updates |
| Redelivery.SecondPassCounts | src/pipeline/load/postgres.py:197-308 | any batch loaded a second time into any catalogue: every count when no two of its records left on one book carry different ISBNs, and a change counted otherwise |
| Redelivery.SecondPassIsQuietExactlyWhen | src/pipeline/load/postgres.py:197-308 | into any catalogue, when each key comes with one payload, however often, a second pass changes nothing if and only if no two of its records left on one book carry different ISBNs; counts and tables alike |
| Redelivery.NoStepMovesARowExactlyWhen | src/pipeline/load/postgres.py:197-308 | for any batch, no step of the second pass changes a catalogue row if and only if no key came with two payloads and no two records left on one book carry different ISBNs |
| Redelivery.RedeliveryIsHarmlessExactlyWhen | src/pipeline/services/load_consumer.py:110-125 | redelivering any end of what was written, known and repeated keys included, counts nothing if and only if no two of its records on one book carry different ISBNs and no payload alters its book; it moves no row at any step if and only if ISBNs and payloads agree |
| Redelivery.NewKeysShareAnIsbn | src/pipeline/load/postgres.py:231-267 | records under keys the catalogue had never seen, each delivered as one record however often, always meet both conditions |
| Redelivery.SwingsForever | src/pipeline/load/postgres.py:284-306 | two stored records that share a book and carry different unowned ISBNs update it twice on every delivery |
| Redelivery.RedeliveryCanCount | src/pipeline/observability/markers.py:157-160 | two concrete records whose every redelivery counts two updates |
| Redelivery.RetitlingCounts | src/pipeline/load/postgres.py:421-447 | two payloads with different titles under one new key, no ISBN: loading the pair again counts two updates though no book has two ISBNs |
| Redelivery.RetitlingExists | src/pipeline/models/events.py:127-128 | a concrete pair of that kind |
| Confluence.UnifyThenLoad | src/pipeline/ingest.py:172-183 | unified observations with new keys all attach to one book, each under its own row, and add at most one book |
| Rerun.SyncNames | src/pipeline/load/postgres.py:491-534 | with consistent spelling, attaching series gives the book the names said of it and moves no other book's names |
| Rerun.SecondRunIsANoOp | src/pipeline/models/db.py:102-103 | with consistent spelling, a second run into a catalogue begun empty changes nothing outside the series tables, updated_at included |
| Rerun.PassMovesNoBookExactlyWhen | src/pipeline/load/postgres.py:764-782 | a pass over stored records leaves every book and updated_at alone if and only if, attaching the stored series in turn to the series tables it starts from, each book's stored text is that of the series it is then on |
| Rerun.SecondRunMovesNoBookExactlyWhen | src/pipeline/models/db.py:102-103 | the same if and only if, on the tables the first run leaves, for a second run into a catalogue begun empty |
| StaleText.SecondRunMovesUpdatedAt | src/pipeline/load/postgres.py:764-782 | a guess, then a confirmation under a spelling that changes the text, then both again: the first book's timestamp moves |
| StaleText.SecondRunIsNotAlwaysANoOp | src/pipeline/models/db.py:102-103 | two concrete Goodreads records, one guessing a series from its title and one linking it, for which a second run rewrites a book |
| Loader.SeriesTables.LandMemberships | src/pipeline/load/postgres.py:594-614 | memberships merge onto the survivor and references stay valid |
| Loader.SeriesTables.MoveAccounts | src/pipeline/load/postgres.py:616-622 | accounts follow, only after their memberships have landed, and references stay valid |
| Loader.SeriesTables.MoveSources | src/pipeline/load/postgres.py:623-627 | source rows follow and references stay valid |
| Loader.SeriesTables.DeletePlacesOf | src/pipeline/load/postgres.py:629 | deleting the folded memberships takes no account with it and references stay valid |
| Loader.SeriesTables.DeleteSeries | src/pipeline/load/postgres.py:630 | deleting the folded row takes nothing else with it and references stay valid |
| Loader.SeriesTables.AbsorbInferredSeries | src/pipeline/load/postgres.py:557-631 | those statements in order are the fold specified, and leave references valid |
| Loader.AbsorbedInSteps | src/pipeline/load/postgres.py:594-631 | memberships first, then accounts, then sources, then the two deletions: nothing is left for the deletions to take and the result is the fold |
| Loader.AccountsMovedKeepsForeignKeys | src/pipeline/load/postgres.py:616-622 | accounts may move once their memberships have landed |
| Loader.SeriesTables.UpsertSeries | src/pipeline/load/postgres.py:536-555 | inserts the row or refreshes its comparison form, and folds in the inferred row when a confirmed id names it |
| Loader.SeriesTables.LinkSeries | src/pipeline/load/postgres.py:715-740 | a null cannot blank a position and confirmation is never withdrawn |
| Loader.SeriesTables.RecordSeriesSource | src/pipeline/load/postgres.py:646-676 | writes the source's series row, refused when the series row is gone |
| Loader.SeriesTables.LinkSeriesSource | src/pipeline/load/postgres.py:678-713 | writes one source's account, refused when a row it refers to is missing |
| Loader.SeriesTables.CollapseToBest | src/pipeline/load/postgres.py:500-506 | the loop over candidates and memberships makes the specified picks |
| Loader.SeriesTables.SyncSeries | src/pipeline/load/postgres.py:491-534 | both loops together attach series as specified, or fail exactly when specified |
| Loader.CatalogueLoader.FindOrCreateBook | src/pipeline/load/postgres.py:231-267 | the book with the record's identity, or a new stub counted as inserted |
| Loader.CatalogueLoader.ReconcileIsbn | src/pipeline/load/postgres.py:271-308 | keeps, promotes or merges, as specified |
| Loader.CatalogueLoader.MergeInto | src/pipeline/load/postgres.py:310-374 | links move, then the orphan is deleted with its cascades, and nothing of its provenance goes with it |
| Loader.MovedBeforeDeleting | src/pipeline/load/postgres.py:319-374 | once links have moved the cascade has nothing of the orphan's left to take but its series |
| Loader.CatalogueLoader.UpsertSource | src/pipeline/load/postgres.py:378-409 | the provenance row holds this payload on this book |
| Loader.CatalogueLoader.Replay | src/pipeline/load/postgres.py:413-447 | the attached payloads that replay, in source and id order |
| Loader.ReplayRows | src/pipeline/load/postgres.py:434-446 | the loop passes over exactly the rows that do not replay |
| Loader.CollectCredits | src/pipeline/load/postgres.py:795-801 | the first credit of each author, over candidates in order |
| Loader.CollectSubjects | src/pipeline/load/postgres.py:880-884 | the first form of each subject |
| Loader.CatalogueLoader.SyncAuthors | src/pipeline/load/postgres.py:784-865 | new authors and links are added and existing ones kept |
| Loader.CatalogueLoader.SyncSubjects | src/pipeline/load/postgres.py:867-918 | new subjects and links are added and none removed |
| Loader.CatalogueLoader.RefreshSeriesSearchText | src/pipeline/load/postgres.py:742-782 | the search text is written, and the timestamp moved, only when it differs |
| Loader.CatalogueLoader.WriteCanonical | src/pipeline/load/postgres.py:465-484 | columns, fingerprint and timestamp are written only when the fingerprint differs, and counted as unchanged, updated or neither |
| Loader.CatalogueLoader.Recompute | src/pipeline/load/postgres.py:449-489 | the whole recomputation as specified, early return and failures included |
| Loader.CatalogueLoader.LoadOne | src/pipeline/load/postgres.py:197-217 | one record loaded as specified, counts included |
| Loader.CatalogueLoader.RunTransaction | src/pipeline/load/postgres.py:166-168 | a batch's records one after the other, or the error that stops them |
| Loader.CatalogueLoader.LoadBatch | src/pipeline/load/postgres.py:152-193 | a batch commits whole and is counted once, or leaves tables and total as they were; it gives up only after five deadlocks |
| Loader.CatalogueLoader.Load | src/pipeline/load/postgres.py:132-150 | whatever the batch size and deadlocks, the tables and counts are those of loading the committed records one at a time |
| Ledgers.CompleteMeansEveryPartition | src/pipeline/observability/markers.py:78-104 | with markers in range, the count reaches the expectation exactly when every partition has reported |
| Ledgers.StrayMarkerMisleads | src/pipeline/observability/markers.py:95-104 | one row outside the range completes a topic no partition of which has reported |
| Ledgers.HandoverIs | src/pipeline/services/wiring.py:55-92 | the barrier freezes what was not frozen, hands over a running run with its extraction tally, and leaves every other run and every marker alone |
| Markers.RunTables.FreezeTopology | src/pipeline/observability/markers.py:26-39 | the first expectation stands |
| Markers.RunTables.RecordMarker | src/pipeline/observability/markers.py:42-75 | the row is there afterwards if and only if a topology was frozen, and a repeat changes nothing |
| Markers.RunTables.IsTopicComplete | src/pipeline/observability/markers.py:78-104 | the completion query over durable rows |
| Markers.RunTables.RunsAwaiting | src/pipeline/observability/markers.py:107-126 | the processing runs with a frozen topology |
| Markers.RunTables.MarkProcessing | src/pipeline/observability/markers.py:129-146 | only a running run is handed over |
| Markers.RunTables.RecordLoaded | src/pipeline/observability/markers.py:149-171 | adds to the run's tallies and to nothing else |
| Markers.RunTables.FinaliseIfComplete | src/pipeline/observability/markers.py:174-190 | closes a processing run whose topic is complete, and no other |
| Markers.RunTables.EmitRunBoundary | src/pipeline/services/wiring.py:55-92 | both topologies are frozen and the run handed over before a marker for each partition goes out |
| RunSafety.StepKeepsInv | src/pipeline/services/load_consumer.py:110-235 | every step of every producer, barrier, consumer, crash, reassignment and sweep keeps the protocol invariant |
| RunSafety.ForwardedIsHanded | src/pipeline/services/transform_consumer.py:133-157 | a record forwarded late already has a copy ahead of its run's boundary |
| RunSafety.RawRowHolds | src/pipeline/services/transform_consumer.py:173-181 | observing a raw boundary means every record of the run on that partition has been dealt with |
| RunSafety.CommittingKeepsInv | src/pipeline/services/transform_consumer.py:120-129 | offsets are committed only past events whose effects are durable |
| RunSafety.SuccessMeansHandled | src/pipeline/observability/markers.py:174-190 | in every reachable state, a successful run has each raw record loaded or parked, can get no more, and was closed exactly once |
| RunRecovery.SweepCloses | src/pipeline/services/load_consumer.py:100-108 | with every row there the startup sweep closes the run |
| RunRecovery.RunsCanAlwaysFinish | src/pipeline/services/transform_consumer.py:100-113 | from every reachable state after the barrier, consumer steps alone can bring the run to success |
| RunRecovery.ClosedOnce | src/pipeline/observability/markers.py:174-190 | a successful run's row never changes again |
| RunRecovery.AbandonedForGood | src/pipeline/observability/runs.py:25-49 | a run left running is closed as failed once, its tallies kept, and no later step hands it over or closes it again |
| RunWitness.ACrashedRunSucceeds | src/pipeline/services/load_consumer.py:110-164 | a run in which each consumer crashes once with its work uncommitted is reachable and succeeds: the usable record is published twice and loaded, the other parked, the run closed once |
| Transform.EveryRecordComesOut | src/pipeline/services/transform_consumer.py:133-171 | every record read comes out once, in order: usable ones forwarded, the rest parked, nothing else published as a record |
| Transform.ReportedIsAnnounced | src/pipeline/services/transform_consumer.py:173-198 | once the rows there and read reach the expectation, every clean partition has its marker |
| Transform.BoundariesWaitForEveryPartition | src/pipeline/services/transform_consumer.py:173-198 | a clean boundary is published only for a run whose topic has fully reported |
| Transform.BoundariesExactlyWhen | src/pipeline/services/transform_consumer.py:173-198 | a clean marker is published if and only if a marker of some topic of its run was read and the rows there and read reach the frozen expectation; then every clean partition's |
| Transform.TransformConsumer.Sweep | src/pipeline/services/transform_consumer.py:100-113 | publishes every clean marker of exactly the runs being processed whose raw topic is complete |
| Transform.TransformConsumer.HandleBook | src/pipeline/services/transform_consumer.py:133-171 | a record is forwarded or parked |
| Transform.TransformConsumer.HandleMarker | src/pipeline/services/transform_consumer.py:173-198 | the row is recorded, and a marker for every clean partition is published if and only if the topic is then complete |
| Transform.TransformConsumer.Run | src/pipeline/services/transform_consumer.py:115-131 | every record is forwarded or parked in order, every boundary due is announced and no other, the rows read are recorded, the sweep announced exactly the complete waiting runs; each delivery is committed after its effect |
| Consumers.LoadConsumer.Commit | src/pipeline/services/load_consumer.py:127-164 | may be called only when everything yielded so far has been written, parked or recorded |
| Consumers.LoadConsumer.HandleMarker | src/pipeline/services/load_consumer.py:226-235 | records and perhaps closes, with nothing waiting to be counted |
| Consumers.LoadConsumer.Count | src/pipeline/services/load_consumer.py:177-183 | row plus memory rises by what was counted, and memory stays below the flush threshold |
| Consumers.LoadConsumer.WriteEveryTally | src/pipeline/services/load_consumer.py:185-198 | memory empties into the rows without changing any run's total |
| Consumers.LoadConsumer.Flush | src/pipeline/services/load_consumer.py:166-175 | a batch is loaded one record at a time in effect, and only what changed is counted |
| Consumers.LoadConsumer.TakeMarker | src/pipeline/services/load_consumer.py:131-138 | batch, then tallies, then the boundary, then the commit |
| Consumers.LoadConsumer.TakeUnusable | src/pipeline/services/load_consumer.py:140-146 | a parked record commits only after everything ahead of it is written |
| Consumers.LoadConsumer.TakeRecord | src/pipeline/services/load_consumer.py:148-158 | a change of run ends the batch; a full batch is written and committed |
| Consumers.LoadConsumer.Sweep | src/pipeline/services/load_consumer.py:100-108 | closes exactly the waiting runs that are complete |
| Consumers.LoadConsumer.Run | src/pipeline/services/load_consumer.py:110-164 | for any batch size, deadlocks and kills the catalogue ends as one-at-a-time loading of a prefix leaves it, all of it when no process dies; rows and memory move by exactly what was counted and parked, which a death leaves at most one batch behind what was written; offsets stay behind what was written; a process that is not killed fails only on a load that cannot commit |
| Consumers.RowIsExactExactlyWhen | src/pipeline/services/load_consumer.py:47-58 | at any end of a process, a run's row is short by exactly what waits in memory and what the batch in hand changed: exact if and only if there is neither, and at most 24 and a batch short |
| Consumers.ARowFallsShort | src/pipeline/services/load_consumer.py:177-183 | two new records, a batch size of one and a kill between them: a row that says nothing was loaded, and a catalogue that changed |
| Consumers.Serve | src/pipeline/services/load_consumer.py:110-198 | over any number of processes, each killed anywhere or not, every row plus what the processes lost is exactly what they changed |
| Consumers.LostAtMost | src/pipeline/services/load_consumer.py:47-58 | what any chain of processes lost for a run is between nothing and 24 and a batch for each |
| Deliveries.BatchChanges | src/pipeline/services/load_consumer.py:166-175 | a batch changes as many books as its records do one at a time |
| Deliveries.OneChangeAtMost | src/pipeline/load/postgres.py:197-217 | one record inserts or updates one book at most |
| Deliveries.RedeliveryAddsNothingExactlyWhen | src/pipeline/observability/markers.py:157-160 | redelivering any end of what was written, whatever was there before and whatever keys repeat, credits no run if and only if no two redelivered records on one book carry different ISBNs and no redelivered payload, at its turn, alters its book |
| Discovery.StreamDump | src/pipeline/discover/openlibrary_dump.py:180-259 | a pass emits exactly the wanted candidates of the lines it counted, stops at the cap, and reports exhaustion only at the end of the file |
| Discovery.CandidatesAre | src/pipeline/discover/openlibrary_dump.py:218-249 | exactly the candidates of whole edition lines are kept, those with a language only if one asked for, those with none always |
| Discovery.CapZeroForgets | src/pipeline/discover/openlibrary_dump.py:206-217 | a pass reports fewer lines than it started from exactly when its cap is zero |
| Discovery.DiscoveryState.SavePosition | src/pipeline/discover/state.py:68-108 | the position is replaced and the emitted count accumulated |
| Discovery.DiscoveryState.DiscoverDump | dags/book_ingestion_dag.py:335-387 | one scheduled run extends the schedule from the saved position, or does nothing once exhausted |
| Discovery.SavedPassesCover | src/pipeline/discover/openlibrary_dump.py:206-258 | the saved passes emit exactly the candidates before the position, once each in order, and all of them once exhausted |
| Discovery.CrashOnlyRepeats | src/pipeline/discover/state.py:76-81 | what a crashed pass wrote, the next one repeats from the same line |
| Discovery.SchedulesEnd | src/pipeline/discover/openlibrary_dump.py:252-257 | no schedule has more saved passes than the file has candidates, and one |
| ExportDiscovery.StreamExport | src/pipeline/discover/goodreads_export.py:177-214 | a pass emits the first usable records from its start, up to the cap, in order |
| ExportDiscovery.DiscoverExport | dags/book_ingestion_dag.py:285-318 | scheduled passes resume at start plus written |
| ExportDiscovery.NoGap | src/pipeline/discover/goodreads_export.py:186-206 | every usable record has been emitted by the time a pass writes nothing |
| ExportDiscovery.PassesEnd | dags/book_ingestion_dag.py:292-318 | a pass that writes nothing comes within as many passes as the file has records |
| ExportDiscovery.OnceExactlyWhenWhole | dags/book_ingestion_dag.py:300-308 | each usable record is emitted exactly once if and only if no unusable one comes before a usable one |
| ExportDiscovery.HoleEmitsTwice | dags/book_ingestion_dag.py:300-308 | an unusable record before a usable one: two passes without a cap emit the usable one twice |
| Roman.IntToRoman | src/pipeline/transform/normalise.py:162-168 | the division loop writes the table-driven rendering |
| Roman.RomanToInt | src/pipeline/transform/normalise.py:171-191 | the reversed scan over the upper-cased text reads, rejects foreign letters, and accepts only what renders back |
| Roman.RoundTrip | src/pipeline/transform/normalise.py:162-191 | every positive number is read back from its rendering |
| Roman.AcceptsExactly | src/pipeline/transform/normalise.py:171-191 | a string is accepted exactly when it is the canonical rendering of the number returned |
| Roman.RenderedByDigits | src/pipeline/transform/normalise.py:162-168 | a number is written as an M for each thousand and then the standard numeral of each decimal digit |
| Roman.WordIsNotANumeral | src/pipeline/transform/normalise.py:174-177 | DID reads as 999 and is refused |
| Isbn.Checked13 | src/pipeline/transform/isbn.py:40-63 | the check digit is right exactly when the weighted sum is a multiple of ten |
| Isbn.Checked10 | src/pipeline/transform/isbn.py:48-70 | the check character is right exactly when the weighted sum is a multiple of eleven |
| Isbn.Valid13ExactlyWhen | src/pipeline/transform/isbn.py:40-63 | thirteen digits under 978 or 979, music apart, are valid exactly when the written-out sum, every second digit tripled, is a multiple of ten |
| Isbn.Valid10ExactlyWhen | src/pipeline/transform/isbn.py:48-70 | nine digits and a digit or X are valid exactly when the written-out sum, weights ten down to one, is a multiple of eleven |
| Isbn.ConvertsExactly | src/pipeline/transform/isbn.py:88-92 | a valid ISBN-10 converts to the one valid ISBN-13 made of 978 and its nine digits |
| Isbn.ReadAsPrinted | src/pipeline/transform/isbn.py:73-94 | a valid ISBN as it stands is read as it stands |
| Isbn.PrintingDoesNotMatter | src/pipeline/transform/isbn.py:32-37 | hyphens, spaces and dashes anywhere make no difference, nor does a small x |
| Isbn.OneDigitWrong13 | src/pipeline/transform/isbn.py:55-63 | changing any one digit of a valid ISBN-13 invalidates it |
| Isbn.OneCharacterWrong10 | src/pipeline/transform/isbn.py:66-70 | changing any one character of a valid ISBN-10 invalidates it |
| Isbn.SwapWrong10 | src/pipeline/transform/isbn.py:66-70 | swapping any two different characters of a valid ISBN-10 invalidates it |
| Isbn.NeighbourSwap13 | src/pipeline/transform/isbn.py:55-63 | past the prefix, an ISBN-13 misses a swap of neighbours exactly when they are equal or differ by five |
| Isbn.ConversionIsIdempotent | src/pipeline/transform/isbn.py:73-94 | only valid ISBN-13s come out, and converting again changes nothing |
| Isbn.FromTenIsInjective | src/pipeline/transform/isbn.py:88-92 | two valid ISBN-10s that convert alike are the same |
| Isbn.FromTenIsOnto | src/pipeline/transform/isbn.py:88-92 | every valid ISBN-13 under 978 is some ISBN-10's |
| Isbn.ChoiceDependsOnConversions | src/pipeline/transform/isbn.py:97-121 | the choice is the least of one to eight valid conversions and depends only on the set of them |
| Goodreads.OpensExactlyWhen | src/pipeline/extract/goodreads.py:142-166 | the circuit is open exactly when access was refused or the failures since a success reached the threshold at some point |
| Goodreads.RefusedExactlyWhen | src/pipeline/extract/goodreads.py:148-166 | the circuit counts as refused exactly when access was denied outright or a refusal is what opened it |
| Goodreads.AnswersMean | src/pipeline/extract/goodreads.py:405-436 | which answers are retried, waited out, final, denied or fine, by status and body |
| Goodreads.StopsExactlyWhen | src/pipeline/extract/goodreads.py:354-403 | a call stops at an answer that settles it, or at the first of its kind past that kind's budget |
| Goodreads.AnswersMove | src/pipeline/extract/goodreads.py:356-403 | what the last answer of a call does to the circuit |
| Goodreads.CircuitBreaker.RecordFailure | src/pipeline/extract/goodreads.py:142-150 | counts, and opens at the threshold without changing the reason of an open circuit |
| Goodreads.GoodreadsExtractor.Get | src/pipeline/extract/goodreads.py:320-436 | within one request and both budgets, ends at the first answer that settles it; an open circuit sends nothing; the pauses and the circuit's next state are those of the answers |
| Goodreads.WaitsEscalate | src/pipeline/extract/goodreads.py:254-267 | block pauses grow up to the configured one, transient ones double |
| Goodreads.WaitsAre | src/pipeline/extract/goodreads.py:253-284 | block pauses start at ten seconds and grow sixfold up to the configured one; transient ones start at one second and double |
| Goodreads.TokenBucket.Acquire | src/pipeline/extract/base.py:408-422 | grants at the clock as read, or as read again after a wait |
| Goodreads.SpacedExactlyWhen | src/pipeline/extract/base.py:408-422 | consecutive grants are an interval apart exactly when no sleep returned early |
| Goodreads.EarlySleepGrantsEarly | src/pipeline/extract/base.py:408-422 | two concrete requests granted too close after a sleep that returned early |
| Goodreads.RateIsKept | src/pipeline/extract/base.py:361-422 | then no stretch of time holds more grants than the rate allows |

## Left out

- PostgreSQL itself: row locks, isolation beyond which committed marker rows a transaction sees, indexes, tsvector and check constraints; concurrent loads appear as one transaction after another, aborted by deadlocks.
- Loader.CatalogueLoader.SyncAuthors: does not model author lifespans or per-source author rows (src/pipeline/load/postgres.py:815-865), whose COALESCE rule is the one modelled for positions.
- Loader.CatalogueLoader.FindOrCreateBook: does not model another transaction inserting the stub between the select and the insert (src/pipeline/load/postgres.py:249-265), because transactions appear one after another.
- Loader.CatalogueLoader.UpsertSource: does not model the payload's hash, `source_updated` or `last_seen_at`; nothing read back depends on them.
- Loader.SeriesTables.RecordSeriesSource: does not model the payload and hash stored beside the source's series row.
- Loader.SeriesTables.LinkSeriesSource: does not model the payload stored beside the account.
- Series-table idempotence and uniqueness of series rows: the code re-creates an inferred row on reload.
- Author positions after a merge (moved links take the column's default) and subject links under reordering: they depend on history in the code.
- Discarding `series` rows left without books: the code never does.
- HTTP clients, HTML and JSON scraping, source mappers, fuzzy matching and resolver budgets: represented by the results they return.
- Unicode folding, case mapping and language tables: normalised strings are taken as given, and the numeral parser is given the case mapping.
- `parse_year` and `parse_author_year`: pattern searches around the numeral parser, then a range test.
- `fallback_identity_key`: an identity without an ISBN is an opaque digest.
- Kafka's client, rebalancing policy and undecodable messages: logs, offsets and free assignment instead.
- Run liveness without the sweep: two overlapping transactions can each miss the other's marker row, so only the possibility of finishing is claimed.
- Asynchronous interleaving of Goodreads calls: a call already past the circuit test keeps its own budgets; calls are modelled one at a time.
- The result cache, source cooldowns, contested ranking, downloads of dumps, gzip errors and manifest checksums.
- DAG wiring beyond the discovery task and the run boundary, the command line, settings validation and dashboards.
- Markers.RunTables.FreezeTopology: does not check that the run's row exists, because the barrier is only called for a run that was started.
- Consumers.LoadConsumer.Park: does not model a kill between parking a record and counting it; rows, memory and offsets are then those of a kill before the delivery, and only the dead letter is there already.
