# Entity resolution engine: a verified model

A Dafny model of the online entity-resolution engine: the resolver that clusters mentions as they
arrive, the service around it, the Redis queue and its worker, and the training protocol of the linker.
`dafny verify dfyconfig.toml` checks the whole project.

## What is modelled

**The resolver.** The store is three append-only tables in insertion order (`Domain`, `Tables`). One bite of
new mentions is stored, scored in one linker call and assigned greedily in arrival order; each mention keeps
its best `top_n` links (`Resolver`, `Ranking`, `Ordering`). `EntityResolver.Engine` is the same algorithm as
it runs: dictionaries and lists filled in loops, repositories on one shared connection, a transaction around
the bite, trace stages emitted after the commit. Its methods are proved against the functions of `Resolver`,
and the theorems are about those functions. The linker is a parameter: any function from a bite and a search
space to a table of scored pairs whose left ids are in the bite, whose right ids are in the search space and
whose scores are in [0, 1]. Ties are exact: `max` takes the first of equals and `sorted` is stable
(`Ordering.FirstMaxIsFirst`, `Ordering.SortIsStable`).

- `Batching` and `RowOrder`: cutting arrivals into bites changes nothing; when exactly the linker's row order matters.
  In the store this holds up to the queue (`QueueWorker.RedisQueueWorker.Run`).
- `Forest`, `Memberships`: what holds in every reachable state.
- `Candidates`, `Placement`: what a ranking says about the assigned cluster, and when it lists it.
- `Requery`, `Pruning`: what asking again returns, and when that is the first answer.
- `EdgeCases`: concrete runs on which a plain reading of a comment fails.

**The service.** `ResolutionService.EntityResolutionService` guards the requests of a batch, resolves the new
mentions in one bite, falls back to one at a time, and answers in-bite repeats. Each statement on the
connection may fail, by a schedule that is an arbitrary field of `Storage.Connection`, and every method says
exactly which faults strike it (`Storage.Struck`). `Service` says on values what a batch answers, stores and
traces for each way the transactions can end (`Fate`), and which faults account for it (`Suffers`);
`ServiceGuarantees`, `BatchAnswers` and `OneByOne` are the theorems about that. `BatchAnswers` states the answer
and the trace of every request by what is stored and by the requests before it.

**The queue and the worker.** `RequestQueue.RedisServer` holds the two Redis lists; producers push any number
of requests before every command. `RequestQueue.RedisRequestQueue.Take` and `QueueWorker.RedisQueueWorker` are
the polling loop and the worker, with responses placed by position. `BiteSizer` is the moving average that
sizes a bite.

**Training.** `ModelTraining` is a state machine: any number of concurrent `train()` calls and one scoring
thread; a section under the swap lock is one step and all else interleaves. `TrainingTrigger` says when a call
is made.

**Text.** `TurtleEscape` is the escaping of string literals in the demo, against a reader written from
sections 6.4 and 6.5 of RDF 1.1 Turtle.

Hypotheses that are not the code's own preconditions: `top_n` is at least 1 (an empty result is refused by the
result type); scores and times are reals; a failing COMMIT leaves nothing of its transaction; ROLLBACK
succeeds; nothing fails between the COMMIT and the return of `resolve_batch`
(`ServiceGuarantees.LateFailureStoresTwice` shows what would happen: the fallback stores the mention again).

## Where comments and code differ

The model follows the code.

- "Always includes the mention's own cluster" (src/ere/services/entity_resolution_service.py:379 and, for the
  shared ranking, :396): the cluster is in the score table, but in the answer if and only if fewer than `top_n`
  entries come before it (`Ranking.ListedByPlace`; for a first answer `Candidates.AssignedIsListedByPlace`, for a
  re-query `Requery.OwnIsListedByPlace`). It can be cut when it was founded, joined or asked for again:
  `EdgeCases.NewClusterCanBeCut`, `EdgeCases.JoinedClusterCanBeCut`, `EdgeCases.RequeriedClusterCanBeCut`.
- The kept links are "all that later readers of stored links can use" (:258): a re-query can lack a candidate of
  the first answer. It is the first answer if and only if the kept links lead to `top_n` clusters (or to all that
  are linked) and every cluster tied with a candidate stands before it in both score tables or in neither
  (`Pruning.PrunedRequeryIsFirstAnswer`). Either half can fail on its own:
  `EdgeCases.SecondCandidateCanBeForgotten`, `EdgeCases.TiedCandidateCanBeSwapped`.
- The joined cluster need not be the first candidate when clusters tie: `Candidates.JoinedClusterRanksFirst`,
  `EdgeCases.JoinedClusterCanRankSecond`.
- Row order of the linker can change a cluster when best links tie: `RowOrder.OrderMattersExactlyOnDivergingTies`,
  `EdgeCases.TieOrderChangesCluster`.
- A batch compares a repeat with the mention as received, single requests compare it with the mention as
  stored, which has exactly the configured fields: `OneByOne.BatchAnswersLikeSingles`, `OneByOne.SameMentionTwice`.

## Model

| member | source | states |
|---|---|---|
| `Batching.BiteIsOneAtATime` | src/ere/services/entity_resolution_service.py:120-214 | one linker call for a bite gives the same three tables and the same results as resolving its mentions one after the other, for a fixed similarity listed in search-space order |
| `Batching.BoundariesDoNotMatter` | src/ere/services/entity_resolution_service.py:120-214 | any division of an arrival sequence into bites gives the tables and results of no batching at all |
| `Batching.AnyTwoDivisionsAgree` | test/features/steps/test_batched_resolution_steps.py:274-300 | two divisions of one sequence agree on every table and every result, not only on the clusters of one random sequence |
| `Batching.EarlierLinksDropLater` | src/ere/services/entity_resolution_service.py:194-214 | grouping the bite's rows keeps, per mention, its rows in order without links to itself or to later arrivals |
| `Batching.BiteLinksAreLinksInTurn` | src/ere/services/entity_resolution_service.py:194-214 | what is kept of the bite's rows is what the mention would have been linked to on its own |
| `RowOrder.OrderMattersExactlyOnDivergingTies` | src/ere/services/entity_resolution_service.py:216-255 | clusters are independent of bite boundaries and of the linker's row order if and only if, at every turn, all links tied for best decide alike |
| `RowOrder.OrderDoesNotMatter` | src/ere/services/entity_resolution_service.py:120-214 | with harmless ties every run of bites, rows in any order, ends in the clusters of no batching |
| `RowOrder.NoTiesAreHarmless` | src/ere/services/entity_resolution_service.py:351-364 | if no two links are ever tied for best the condition holds |
| `RowOrder.DivergingTieChangesCluster` | src/ere/services/entity_resolution_service.py:216-255 | from every diverging tie a row order is built under which the clusters differ |
| `EdgeCases.TieOrderChangesCluster` | src/ere/services/entity_resolution_service.py:351-364 | a concrete tie on which the row order decides the cluster |
| `Forest.BiteKeepsInvariant` | src/ere/services/entity_resolution_service.py:154-192 | every bite, whatever the linker scores and in whatever order, keeps: one cluster per mention, no mention twice, every non-founder with a stored link at or above the threshold to an earlier member of its cluster, every link from a later to an earlier mention |
| `Forest.RunKeepsInvariant` | src/ere/services/entity_resolution_service.py:154-259 | this holds in every state reachable from the empty store, the linker being replaced between any two bites |
| `Forest.JoinHasWitness` | src/ere/services/entity_resolution_service.py:257-259 | truncation to `top_n` never drops the link a join is based on |
| `Forest.ClusterIsRootedAtFounder` | src/ere/services/entity_resolution_service.py:216-255 | from every mention a chain of such links inside its cluster ends at the mention the cluster is named after |
| `Forest.FounderIsUnique` | src/ere/services/entity_resolution_service.py:235-243 | a cluster has exactly one founder |
| `Ranking.RankingIsExact` | src/ere/services/entity_resolution_service.py:388-411 | candidates are never empty, best first, as many as `top_n` and the table allow, carry their table score, and none that is cut beats one that is kept |
| `Ranking.RankingIsTop` | src/ere/services/entity_resolution_service.py:388-411 | the score table lists the linked clusters in the order of their first links, then the own cluster if unlinked, and the candidates are its `top_n` top entries, ties included |
| `Ranking.TableIsUnique` | src/ere/services/entity_resolution_service.py:399-405 | links and clusters determine the score table, its order included |
| `Ranking.ListedByPlace` | src/ere/services/entity_resolution_service.py:399-411 | a cluster of the score table is a candidate if and only if fewer than `top_n` entries come before it |
| `Ranking.TableExtendsMaxima` | src/ere/services/entity_resolution_service.py:388-406 | each linked cluster's score is the maximum over exactly the links that lead to it, and the own cluster is added with 0.0 only if unlinked |
| `Ranking.MaximaAreUnique` | src/ere/services/entity_resolution_service.py:400-405 | these maxima depend on which links there are and not on their order |
| `EntityResolver.RankInLoop` | src/ere/services/entity_resolution_service.py:388-411 | the dictionary-filling loop computes the specified ranking, insertion order and ties included |
| `Ordering.SortIsStable` | src/ere/services/entity_resolution_service.py:406 | sorting in descending order keeps equals in their old order |
| `Ordering.SortIsDescending` | src/ere/services/entity_resolution_service.py:406 | the sorted list descends and starts with the first maximum |
| `Ordering.FirstMaxIsFirst` | src/ere/services/entity_resolution_service.py:351-364 | the best match is the first link that no link exceeds |
| `Resolver.TopLinksAreStored` | src/ere/services/entity_resolution_service.py:257-259 | of a mention's links exactly `top_n`, or all if there are fewer, are stored: the highest-scoring ones, best first, the earlier one of equals, and none left out scores above one that is kept |
| `Batching.BiteStoresTopLinks` | src/ere/services/entity_resolution_service.py:154-192 | a bite stores, mention by mention, exactly these top links of its rows to stored or earlier mentions, and no other link |
| `Placement.TopIsUnique` | src/ere/services/entity_resolution_service.py:257-259 | there is only one list of top elements, ties included |
| `Placement.LargestByPlace` | src/ere/services/entity_resolution_service.py:406-410 | an element is among the n largest if and only if fewer than n come before it: a higher key, or an equal one earlier in the list |
| `Candidates.JoinsExactlyAboveThreshold` | src/ere/services/entity_resolution_service.py:216-255 | a new cluster is founded if and only if every link is below the threshold; otherwise the cluster of the first best link is joined |
| `Candidates.JoinedClusterScoresBest` | src/ere/services/entity_resolution_service.py:225-255 | on a join the assigned cluster has the top score of all linked clusters |
| `Candidates.JoinedClusterRanksFirst` | src/ere/services/entity_resolution_service.py:388-411 | the first candidate has that score, and is the assigned cluster if and only if no cluster linked earlier ties with it |
| `Candidates.AssignedIsListedByPlace` | src/ere/services/entity_resolution_service.py:388-411 | the cluster a new mention founds or joins is a candidate if and only if fewer than `top_n` entries of its table come before it |
| `Candidates.JoinedClusterIsListed` | src/ere/services/entity_resolution_service.py:225-255 | on a join only clusters linked earlier that tie with the joined one come before it, and it is cut if and only if they fill all places |
| `Candidates.FoundedClusterRanksLast` | src/ere/services/entity_resolution_service.py:388-411 | in the first answer to a mention that founds a cluster, the cluster is listed if and only if fewer than `top_n` clusters are linked, and then last with score 0.0 |
| `Requery.OwnIsListedByPlace` | src/ere/services/entity_resolution_service.py:366-386 | a re-query lists the mention's own cluster if and only if fewer than `top_n` entries of its table come before it |
| `EdgeCases.NewClusterCanBeCut` | src/ere/services/entity_resolution_service.py:388-411 | a concrete first answer without the cluster the mention has just founded |
| `EdgeCases.JoinedClusterCanBeCut` | src/ere/services/entity_resolution_service.py:388-411 | a concrete first answer without the cluster the mention has just joined |
| `EdgeCases.RequeriedClusterCanBeCut` | src/ere/services/entity_resolution_service.py:366-386 | a concrete reachable store, without any tie, in which the re-query of a mention does not list its own cluster |
| `EdgeCases.JoinedClusterCanRankSecond` | src/ere/services/entity_resolution_service.py:388-411 | a concrete join that lists the joined cluster second, behind one it ties with |
| `Requery.RequeryRanksStored` | src/ere/services/entity_resolution_service.py:366-386 | in every reachable state a stored mention's re-query is never empty and is the top of the score table over its stored links and the stored clusters |
| `Requery.StoredRankingIsUnique` | src/ere/services/entity_resolution_service.py:366-386 | what is stored allows one answer only, ties included |
| `Requery.RequeryAgreesWithFirstAnswer` | src/ere/services/entity_resolution_service.py:302-386 | as long as no later link touches a mention, every cluster a re-query scores has its first score, a missing one scored no more than any kept link, and with at most `top_n` links nothing differs |
| `Pruning.PrunedRequeryIsFirstAnswer` | src/ere/services/entity_resolution_service.py:257-259 | the pruned re-query of a mention no later link touches equals its first answer, for all scores, if and only if the kept links lead to `top_n` clusters or to all linked ones, and a cluster tied with a candidate of the first answer stands before it in both score tables or in neither |
| `Pruning.PrunedRequeryWithoutTies` | src/ere/services/entity_resolution_service.py:257-259 | if no two clusters tie, the number of clusters the kept links lead to alone decides whether the re-query equals the first answer |
| `Pruning.SameAnswerExactly` | src/ere/services/entity_resolution_service.py:388-411 | for all scores, two rankings one of which lost its worst clusters agree if and only if no place is missed and every candidate keeps its place |
| `EdgeCases.SecondCandidateCanBeForgotten` | src/ere/services/entity_resolution_service.py:257-259 | a concrete mention whose second candidate a re-query no longer finds, as both kept links lead to the first |
| `EdgeCases.TiedCandidateCanBeSwapped` | src/ere/services/entity_resolution_service.py:257-259 | a concrete mention whose kept links fill all places and whose re-query still answers another cluster: the lost one of two tied clusters was the first answer |
| `Requery.TruncationKeepsScores` | src/ere/services/entity_resolution_service.py:257-259 | keeping the `top_n` top links changes the score of no cluster that stays linked, and a lost cluster beats no kept link |
| `Requery.OwnLinksAreFound` | src/ere/adapters/duckdb_repositories.py:183-209 | looking up a new mention's links returns exactly its `top_n` top links |
| `Requery.RequeryOnlyGrows` | src/ere/services/entity_resolution_service.py:302-324 | whatever is committed later, a mention keeps its cluster and no cluster's score in its un-pruned table decreases or disappears |
| `Tables.LookupsAgree` | src/ere/adapters/duckdb_repositories.py:231-258 | the single lookup (first row) and the bulk lookup (last row) of a cluster agree and succeed exactly for stored mentions |
| `Tables.LookupsAreStable` | src/ere/adapters/duckdb_repositories.py:224-258 | appending rows changes no stored mention's cluster |
| `Tables.FindByIdIsUnique` | src/ere/adapters/duckdb_repositories.py:95-114 | with distinct ids the row found for a mention is its own |
| `Domain.TableRoundTrip` | src/ere/services/entity_resolution_service.py:414-419 | writing links as columns and reading the rows back loses and reorders nothing |
| `Memberships.ListsArePartition` | src/ere/adapters/duckdb_repositories.py:267-289 | a stored mention is in the member list of its own cluster and in no other |
| `Memberships.MembersAreStored` | src/ere/adapters/duckdb_repositories.py:267-289 | every listed member is a stored mention |
| `Memberships.SizesSumToMentions` | src/ere/adapters/duckdb_repositories.py:267-289 | the sizes of all member lists add up to the number of stored mentions |
| `Memberships.OneClusterPerFounder` | src/ere/adapters/duckdb_repositories.py:260-289 | the number of keys, the reported cluster count and the number of founders are equal |
| `EntityResolver.LinksToEarlier` | src/ere/services/entity_resolution_service.py:194-214 | the grouping loop gives every mention of the bite exactly its links to stored mentions and earlier arrivals |
| `EntityResolver.Engine.Assign` | src/ere/services/entity_resolution_service.py:216-255 | one turn assigns the specified cluster and records its two stages with the times they happened |
| `EntityResolver.Engine.AssignBite` | src/ere/services/entity_resolution_service.py:172-183 | the turns of a bite decide as if each mention had been committed before the next |
| `EntityResolver.Engine.ResolveBite` | src/ere/services/entity_resolution_service.py:154-192 | without a fault the three tables and all results are those of the specification |
| `EntityResolver.Engine.Transact` | src/ere/services/entity_resolution_service.py:145-146 | a bite is committed as a whole or leaves the tables as they were, whichever statement fails |
| `EntityResolver.Engine.ResolveBatch` | src/ere/services/entity_resolution_service.py:120-152 | a committed bite shows scored, clustered and persisted in each trace and starts training exactly if it crosses the threshold; a failed one changes neither tables, traces nor trainings; it fails if and only if a statement of its own does |
| `EntityResolver.EmitStages` | src/ere/services/tracing.py:149-159 | deferred stages are emitted late with their recorded times, in order, and no stage has a negative duration |
| `Storage.Connection.Statement` | src/ere/adapters/duckdb_unit_of_work.py:15-23 | a statement uses up one place of the fault schedule and fails exactly as that says |
| `Storage.Connection.Commit` | src/ere/adapters/duckdb_unit_of_work.py:15-23 | the transaction's tables are kept, or those from before it |
| `Storage.Connection.Rollback` | src/ere/adapters/duckdb_unit_of_work.py:15-23 | the tables are those from before the transaction |
| `Storage.MentionRepository.Save` | src/ere/adapters/duckdb_repositories.py:50-71 | one row is appended with exactly the configured fields, each with the mention's value or empty, or nothing changes |
| `Storage.SimilarityRepository.SaveTable` | src/ere/adapters/duckdb_repositories.py:159-176 | all rows are appended in order or none, and an empty table executes nothing |
| `Storage.ClusterRepository.ClustersOf` | src/ere/adapters/duckdb_repositories.py:247-258 | the clusters of exactly the asked mentions that have one; no ids execute no statement and cannot fail |
| `TrainingTrigger.CrossedExactlyOnce` | src/ere/services/entity_resolution_service.py:261-272 | however the mentions are divided into commits, training is started once if the threshold is reached from below and never otherwise |
| `TrainingTrigger.RequestedAtMostOnce` | src/ere/services/model_lifecycle.py:54-65 | over start-up and all commits of a process, training is requested at most once, and exactly when due |
| `ServiceGuarantees.PendingIsAllOrNothing` | src/ere/services/entity_resolution_service.py:621-662 | whatever fails inside the units of work, a new mention is answered with a resolution and stored exactly once with one cluster, or answered with an error and found in no table |
| `ServiceGuarantees.FailuresAreIsolated` | src/ere/services/entity_resolution_service.py:621-662 | a bite is committed if and only if nothing strikes it; otherwise the first fault is the bite's and each later one fails exactly one mention, of its kind and in order |
| `ServiceGuarantees.OneFaultFailsNoRequest` | src/ere/services/entity_resolution_service.py:628-652 | with two or more new mentions in a batch a single fault fails none of them |
| `ServiceGuarantees.StoredExactlyIfCommitted` | src/ere/services/entity_resolution_service.py:621-662 | a new mention is stored if and only if its own attempt was committed |
| `ServiceGuarantees.BatchStoresTheCommitted` | src/ere/services/entity_resolution_service.py:559-584 | a batch adds exactly the committed new mentions, in order, and leaves a state with all invariants |
| `ServiceGuarantees.RepeatFollowsItsFirst` | src/ere/services/entity_resolution_service.py:664-670 | an in-bite repeat follows a request for the same mention and is resolved if and only if that one was committed, else gets an internal error |
| `ServiceGuarantees.AnswersCarryTheirRequest` | src/ere/services/entity_resolution_service.py:559-584 | the i-th answer carries the i-th request's id |
| `ServiceGuarantees.PendingIsFresh` | src/ere/services/entity_resolution_service.py:586-619 | the mentions the guards leave to resolve have different ids, none of them stored |
| `ServiceGuarantees.EventsAreExact` | src/ere/services/tracing.py:12-23 | each trace shows scored, clustered and persisted once each if its mention was committed and never if rolled back, and follows the declared stage order |
| `ServiceGuarantees.LateFailureStoresTwice` | src/ere/services/entity_resolution_service.py:145-152 | resolving a mention again after its commit stores it twice and breaks the invariant |
| `ResolutionService.EntityResolutionService.GuardAll` | src/ere/services/entity_resolution_service.py:574-579 | every request is sorted into answered, repeat or new by the specified guard, against what earlier requests of the batch left to resolve |
| `ResolutionService.EntityResolutionService.ResolveAlone` | src/ere/services/entity_resolution_service.py:654-662 | one attempt commits and answers, or leaves no row, no stage and no training; it fails if and only if one of its own statements does, with that fault |
| `ResolutionService.EntityResolutionService.ResolveApart` | src/ere/services/entity_resolution_service.py:641-646 | every new mention gets one attempt, in order, and the faults that strike are exactly those of the failed attempts |
| `ResolutionService.EntityResolutionService.ResolvePending` | src/ere/services/entity_resolution_service.py:621-652 | answers, tables, traces and trainings of the bite or of its fallback are those of one possible fate, and the faults that strike account for it: none for a commit, else one for the bite and one for each failed attempt |
| `ResolutionService.EntityResolutionService.FindCached` | src/ere/services/entity_resolution_service.py:302-386 | a stored mention is ranked anew and an unknown one is none; it raises if and only if one of its own queries fails: one for an unknown mention, three without links, four with links |
| `ResolutionService.EntityResolutionService.RespondCached` | src/ere/services/entity_resolution_service.py:664-670 | a repeat is answered from the store, and raises if and only if one of its up to four queries fails |
| `ResolutionService.EntityResolutionService.RespondRepeats` | src/ere/services/entity_resolution_service.py:581-584 | repeats are answered from the store and all other answers stay; it raises if and only if one of the queries for the repeats fails |
| `ResolutionService.EntityResolutionService.ProcessBatch` | src/ere/services/entity_resolution_service.py:559-584 | under every fault schedule: one answer per request in order unless a read for an in-bite repeat fails, which is the only way it raises; tables, each trace and the trainings started are those of one fate, for which the faults that strike account |
| `BatchAnswers.PendingExactlyIfNew` | src/ere/services/entity_resolution_service.py:586-619 | a request is left to resolve if and only if its mention is not stored and no earlier request of the batch asks for it |
| `BatchAnswers.RefusedAreAnswered` | src/ere/services/entity_resolution_service.py:593-613 | a request without a mention gets the error of its kind: unsupported, malformed or crashed |
| `BatchAnswers.StoredAreAnswered` | src/ere/services/entity_resolution_service.py:601-615 | under every fate a request for a stored mention is answered with the ranking of what is stored, if the attributes are the stored ones, and with a conflict if not |
| `BatchAnswers.RepeatsAreAnswered` | src/ere/services/entity_resolution_service.py:605-617 | under every fate an in-bite repeat is a conflict if its attributes are not those of the first request for the mention; else it is answered with the ranking of what the batch leaves exactly if that request was resolved, and with an internal error if not |
| `BatchAnswers.NewAreAnswered` | src/ere/services/entity_resolution_service.py:621-662 | under every fate a new mention gets the candidates of resolving it alone after the mentions committed before it, or the error of the fault that struck its attempt |
| `BatchAnswers.BatchStoresOneAtATime` | src/ere/services/entity_resolution_service.py:621-662 | under every fate a batch leaves the tables of resolving the committed new mentions one at a time |
| `BatchAnswers.NewAreTold` | src/ere/services/entity_resolution_service.py:621-662 | for every linker and under every fate a new mention is answered with the top of the score table of its turn, its row, links and cluster stay stored, and its trace tells the number of links, their best score and the cluster; or it gets an error and its trace tells the guard alone |
| `BatchAnswers.OthersAreTold` | src/ere/services/entity_resolution_service.py:602-619 | the trace of any other request tells exactly how its mention compared with what was stored: new, idempotent or in conflict |
| `OneByOne.BatchStoresLikeSingles` | src/ere/services/entity_resolution_service.py:559-584 | without failures one batch leaves the same tables as its requests one by one |
| `OneByOne.BatchingDoesNotMatter` | src/ere/services/entity_resolution_service.py:559-584 | without failures no division of a stream of requests into batches changes a table, repeats, conflicts and malformed requests included |
| `OneByOne.BatchResolvesLikeSingles` | src/ere/services/entity_resolution_service.py:621-652 | every newly resolved mention gets the same candidates either way |
| `OneByOne.BatchAnswersLikeSingles` | src/ere/services/entity_resolution_service.py:586-619 | a request gets the same kind of answer either way if and only if comparing it with the first mention of its id agrees as received and as stored |
| `OneByOne.ConfiguredFieldsSuffice` | src/ere/services/entity_resolution_service.py:427-456 | mentions with exactly the configured fields get the same kind of answer either way |
| `OneByOne.ScoreAllListsAsScored` | src/ere/services/entity_resolution_service.py:163-165 | for every similarity with values in [0, 1] there is a linker the batching theorems apply to |
| `OneByOne.SameMentionTwice` | src/ere/services/entity_resolution_service.py:326-345 | one mention sent twice is resolved in a batch; one by one it is a conflict if and only if its fields are not the configured ones |
| `ModelTraining.RunKeepsInvariant` | src/ere/adapters/splink_linker_impl.py:255-285 | in every interleaving the lock has one holder, only the call that swapped may report a trained model, and swapped parameters are pending or in force |
| `ModelTraining.AtMostOneReportsTrained` | src/ere/adapters/splink_linker_impl.py:255-270 | of any number of concurrent calls at most one ever reports a trained model |
| `ModelTraining.ReportsAreExact` | src/ere/adapters/splink_linker_impl.py:460-516 | in every interleaving a call that is over raised exactly if opening its cursor or cleaning up failed; else it reports trained exactly if it swapped, failed exactly if its run failed, and skipped exactly if neither |
| `ModelTraining.SkipsHaveReason` | src/ere/adapters/splink_linker_impl.py:262-268 | a call is skipped only because training was not needed at one of its checks or another call was inside when it tried the lock |
| `ModelTraining.CallsGoOn` | src/ere/adapters/splink_linker_impl.py:255-270 | in every reachable state a call that is not over has a step to take |
| `ModelTraining.TrainedAndInForce` | src/ere/adapters/splink_linker_impl.py:255-270 | a run exists that reports a trained model, saves it and puts it in force |
| `ModelTraining.NoTrainingOnceBlocked` | src/ere/adapters/splink_linker_impl.py:279-285 | with a loaded or an unusable model file every call is skipped and scoring stays as it started |
| `ModelTraining.FailureKeepsDefaults` | src/ere/adapters/splink_linker_impl.py:509-513 | a failing run leaves the cold-start parameters in force and training still needed |
| `ModelTraining.ClearedSettingsAreInForce` | src/ere/adapters/splink_linker_impl.py:359-369 | settings are cleared only when the scoring linker is built with them, after any number of failed rebuilds |
| `ModelTraining.TrainedParametersAreKept` | src/ere/adapters/splink_linker_impl.py:359-369 | from the swap on the trained parameters are pending or in force, and once in force stay so |
| `ModelTraining.RetriedRebuildSucceeds` | src/ere/adapters/splink_linker_impl.py:359-369 | in every interleaving a rebuild leaves the settings pending, and one that succeeds puts the published parameters in force; they stop being pending only when in force |
| `ModelTraining.ReportIsBacked` | src/ere/adapters/splink_linker_impl.py:460-516 | a reported training has its own parameters pending or in force, and saved if there is a path |
| `ModelTraining.LaterCallMayTrain` | src/ere/adapters/splink_linker_impl.py:255-270 | in every interleaving a call that got the lock found no other inside, and trains if training was needed when it got it |
| `ModelTraining.FreeLockIsTaken` | src/ere/adapters/splink_linker_impl.py:266-267 | a call that tries gets the lock if and only if no other call is inside, so failed runs block none |
| `ModelTraining.FileExistsExactlyIfSaved` | src/ere/adapters/splink_linker_impl.py:494-498 | at any point there is a model file if and only if there was one at the start or a run has saved to the path |
| `ModelTraining.FailureAfterSavingLeavesTheFile` | src/ere/adapters/splink_linker_impl.py:493-513 | a run that fails after saving leaves a file that was not there at the start, if there is a path, while the process keeps its defaults |
| `ModelTraining.SavedAndFailed` | src/ere/adapters/splink_linker_impl.py:493-513 | such a run exists: check, lock, check again, save, fail |
| `RequestQueue.RedisRequestQueue.Take` | src/ere/adapters/redis_request_queue.py:35-61 | with producers pushing at every step: bite and remaining queue are the old queue and what was pushed, in order; at most `limit` requests and `max_bytes` bytes unless it is a single one; it ends early only if the next request would not fit, or if none waits and the linger time has passed; the loop terminates |
| `RequestQueue.RedisRequestQueue.WithinByteCap` | src/ere/adapters/redis_request_queue.py:70-81 | the longest fitting prefix is taken, and the rest waits again as the oldest, in its old order |
| `RequestQueue.RedisServer.PushBack` | src/ere/adapters/redis_request_queue.py:76-77 | requests pushed back are the next to be taken, in their old order, in spite of newer arrivals |
| `RequestQueue.RedisServer.PopWaiting` | src/ere/adapters/redis_request_queue.py:83-96 | the oldest waiting requests are taken, oldest first, fewer than asked only if none is left |
| `RequestQueue.RedisServer.PushResponses` | src/ere/adapters/redis_request_queue.py:63-68 | a consumer reads the responses in the order they were given, after all earlier ones |
| `RequestQueue.RedisServer.TakenInOrder` | src/ere/adapters/redis_request_queue.py:35-61 | conservation before and after gives the order law of a bite |
| `RequestQueue.PollsRunOut` | src/ere/adapters/redis_request_queue.py:47-55 | each sleep uses up at least one of the finitely many polls that fit before the linger deadline |
| `QueueWorker.RedisQueueWorker.Dequeue` | src/ere/entrypoints/queue_worker.py:105-115 | every message gets a trace of its own that shows when it was dequeued |
| `QueueWorker.RedisQueueWorker.Parse` | src/ere/entrypoints/queue_worker.py:82-93 | exactly the messages that do not parse are answered, each with a processing error under its peeked id at its position |
| `QueueWorker.RedisQueueWorker.AskService` | src/ere/entrypoints/queue_worker.py:117-132 | the service is called once for all readable messages; it raises only on a failing read for an in-bite repeat, and then each of them gets a processing error under its peeked id |
| `QueueWorker.RedisQueueWorker.Resolve` | src/ere/entrypoints/queue_worker.py:117-134 | after placing results by position every message has its own answer |
| `QueueWorker.RedisQueueWorker.SendResponses` | src/ere/entrypoints/queue_worker.py:167-179 | the stream grows by the serialisable responses in request order |
| `QueueWorker.RedisQueueWorker.Process` | src/ere/entrypoints/queue_worker.py:75-103 | the answers of a bite in message order, the tables, the trainings, the faults that strike, and every message's lifecycle from dequeued to responded; the rate of the bite is observed, over a time that covers the lifecycle of each of its messages |
| `QueueWorker.RedisQueueWorker.ProcessBite` | src/ere/entrypoints/queue_worker.py:65-73 | a bite within the limit the observed rate allows is taken, answered and sent, and it is not empty while requests wait; between two bites nothing is lost, every consumed request has its answer and every answer is in the stream; unreadable messages, and all if the service raises, get a processing error under their peeked id; without in-bite repeats the service answers every readable message whatever fails |
| `QueueWorker.RunsOn` | src/ere/entrypoints/queue_worker.py:65-103 | runs compose: what one run and the next one guarantee about store, answers and trainings holds for both together |
| `QueueWorker.NoRepeatJobs` | src/ere/services/entity_resolution_service.py:611-619 | a batch without two requests for one mention has no in-bite repeat, so it cannot raise |
| `QueueWorker.RedisQueueWorker.Run` | src/ere/entrypoints/queue_worker.py:65-73 | over any number of bites with producers pushing at every step: what was pushed stays recorded, and consumed and waiting requests are all of it, in order; after as many bites as requests waited at the start all of those are consumed and answered; unreadable ones with a processing error under their peeked id; if all responses serialise the stream is their one-for-one in-order image; the store keeps its invariant and only grows; training is started once if the threshold is crossed; without two requests for one mention the service answers every readable message whatever fails; without faults and with rows in search-space order the store is that of the consumed requests one by one |
| `QueueWorker.ResponsesBelong` | src/ere/entrypoints/queue_worker.py:75-134 | every message gets the service's answer to its own request, or a processing error under its own peeked id, as every message does when the service raises |
| `QueueWorker.StreamIsOneForOne` | src/ere/entrypoints/queue_worker.py:167-179 | the stream is one-for-one with the responses if and only if all of them serialise |
| `QueueWorker.LifecycleFollowsStages` | src/ere/services/tracing.py:12-23 | from the queue to the response the events of every message follow the declared order |
| `QueueWorker.LifecycleIsExact` | src/ere/entrypoints/queue_worker.py:75-103 | which stages a message shows: dequeued and responded always, parsed and guarded if it asks for a mention, scored, clustered and persisted if that mention is new and resolved |
| `Tracing.MentionTrace.StageAt` | src/ere/services/tracing.py:101-124 | a stage is logged with the time since the previous one, which is never negative if the recorded time is not in the past of that stage |
| `BiteSizer.AverageIsWeightedSum` | src/ere/services/bite_sizer.py:24-32 | the moving average is the weighted sum of all observed rates, each earlier weight shrinking by 0.7 |
| `BiteSizer.AverageStaysInRange` | src/ere/services/bite_sizer.py:24-32 | it stays between any bounds of the observed rates |
| `BiteSizer.ErrorShrinks` | src/ere/services/bite_sizer.py:24-32 | after k bites at a constant rate the error is exactly 0.7^k of what it was |
| `BiteSizer.LimitIsNearest` | src/ere/services/bite_sizer.py:16-21 | the limit is the integer nearest to rate times target duration, a half to the even one, or the bound it lies beyond, and the maximum before any observation |
| `BiteSizer.LimitIsClampedAndMonotone` | src/ere/services/bite_sizer.py:16-21 | the limit is between one and the configured maximum and a faster rate never lowers it |
| `BiteSizer.RoundIsNearestEven` | src/ere/services/bite_sizer.py:20 | rounding gives the one nearest integer, a half to the even one |
| `BiteSizer.Sizer.Observe` | src/ere/services/bite_sizer.py:23-32 | the kept rate is the average of all observed rates, bites without measurable time left out |
| `BiteSizer.Sizer.CurrentLimit` | src/ere/services/bite_sizer.py:16-21 | the limit is the configured maximum before any observation and the clamped number of requests that fit the target afterwards |
| `TurtleEscape.FivePassesAreOne` | src/demo/demo.py:170-196 | the five whole-string replacements equal one escape per character |
| `TurtleEscape.EscapeRoundTrip` | src/demo/demo.py:170-196 | the output is always a legal body of STRING_LITERAL_QUOTE, and reading it by the escape rules gives the text back |
| `TurtleEscape.EscapeIsInjective` | src/demo/demo.py:170-196 | different texts have different escaped forms |
| `TurtleEscape.BackslashMustBeFirst` | src/demo/demo.py:185-186 | escaping the backslash last gives another text if and only if the text holds one of the other four escaped characters |

## Left out

- `Service.Guard`: does not model which read fails while a request is guarded; any such failure is the request's mapping outcome `Crashes`, whose trace shows no stage, whereas the code may already have logged `parsed`.
- `QueueWorker.RedisQueueWorker.Run`: does not model retraining between its bites (one linker for the run); `Forest.RunKeepsInvariant` allows a new linker for every bite.
- `RequestQueue.RedisServer.PopWaiting`: does not model the fallback from LMPOP to RPOP with a count, which takes the same requests.
- `Memberships.AllMemberships`: does not model the alphabetical order of keys and members.
- `Storage.SimilarityRepository.SaveTable`: does not model the rounding of scores to 32-bit REAL.
- `Tracing.MentionTrace.StageAt`: does not model the rounding of durations to three decimals, log levels or disabled traces.
- `ModelTraining.Apply`: is a step relation instead of methods on shared fields, because the claims are about interleavings of several threads.
- Splink: scoring, EM estimation, cold-start parameters, SQL rendering, per-request cleanup.
- Real DuckDB, Redis, JSON and LinkML calls: tables, lists and an arbitrary codec stand for them.
- RDF mapping and the derivation of mention ids: the mapped mention, or its failure, is part of the request.
- A linker with a connection of its own: the mentions table is the search space, as in production.
- Crashes between taking and answering, several consumers of one queue, failed response pushes.
- Configuration parsing and blocking-rule validation: the bounds of the batch settings are preconditions.
- Log text, queue-wait arithmetic, batch stage times, the command line, the rest of the demo.
- Floating-point rounding of scores, rates and times.
