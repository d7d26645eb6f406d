# pgturbohybrid: search, storage and fusion, verified

A Dafny model of the parts of pgturbohybrid, a PostgreSQL index access method for hybrid search,
in which a fast form has to agree with a simple one.

* **BM25 search** (`Accumulator`, `Wand`, `WandSearch`, `AndSearch`, `Exhaustive`, `TopKSearch`, with
  `PostingIterators`, `PostingLists`, `Bm25Scoring`, `ActiveOrder`, `BoundedSelection`, `FinalSelection`,
  `QueryEval`, `Ranking`, `Sums`, `DenseAccumulator`).  Iterators over chunked posting lists drive a WAND loop and a
  rarest-term AND loop; both are proved, through an indexed min-heap and a bounded heap, to return what
  exhaustive scoring and a full sort return.  For WAND that holds exactly where chunk bounds cover every
  later score of their list: `Wand.ExactIffSafe` proves both directions, and `Wand.UnsafeIsInexact` builds
  the query and the live set on which the early stop goes wrong.
* **Chunk cache** (`HotCache`).  A hash table and a doubly linked list in order of last use.
* **Fusion** (`Fusion`, `FusionPaths`, `FusedRanking`, `FusionLaws`, `GenerationArrays`, `Probing`).  One merge written three times,
  over stamped arrays, a probing hash table and a sorted array; the three return the same sequence, which is stated
  over the candidates alone.  Whoever is ahead in every branch in which the other occurs comes first.
* **Fusion by document** (`DocumentFusion`, `DocumentRanking`, `DocumentLists`, `DocumentPaths`).  With a multivector query, dense,
  multivector and BM25 candidates are merged by heap tid.  The hash path and the sort path may leave a document with
  different node ids, exactly where its last candidate does not have the least one
  (`DocumentFusion.NodesAgreeIff`); documents, scores and order are the same all the same
  (`DocumentRanking.DocumentPathsAgree`).
* **From storage to search** (`StoredIndex`, `IndexSearch`, `Statistics`).  What the writer stores of a term, read back
  chunk by chunk, is a list the search accepts and shows exactly what a query may see, with its scores; so
  the result of a search over an index, after any run of inserts and compactions, is stated in terms of the
  stored postings and the counters of the index alone (`Statistics.Search`).  `ScoreLaws` says what these scores are:
  equations over counts and lengths, and that the rarer word wins.
* **Compaction and answers** (`CompactionAnswers`, `CompactionExample`).  A compaction keeps which documents a query finds,
  and by which terms.  Scores depend on counters that it sets anew, without dead documents and without empty
  ones of the base: the statistics of a query stay if and only if there are none, and no delta document with one of its
  terms has died since (`CompactionAnswers.StatisticsKeptIff`).  Then all answers stay, scores included, unless norms are quantized
  (`CompactionAnswers.KeptDocumentsKeepAnswers`); a quantized score stays exactly where its norm does
  (`CompactionAnswers.QuantizedTermKeptIff`).  In general an unquantized score stays if and only if the rarity of its term and
  the effective average length do (`CompactionAnswers.PlainScoreKeptIff`), and even the best answer may change
  (`CompactionExample.BestAnswerChanges`).
* **Fused-score pruning** (`FusedBound`, `FusedPruning`).  Dropping BM25 candidates by a bound on the fused
  score never shows in the first finalK results.
* **BM25 storage** (`TermTuples`, `LexiconLaws`, `DocLengths`, `SpillMerge`, `Varint`, `PostingsCodec`, `CodecLaws`, `PostingsChain`,
  `DeltaStore`, `Compaction`, `Counting`).  A memory-bounded build that spills and merges runs, four posting encodings, an append-only
  delta kept twice, and a compaction that keeps what queries see.
* **Vector codes** (`Rotation`, `RotationForms`, `BitPlanes`, `BitPlaneScoring`).  The rotation keeps inner products and has a closed
  form; weighted popcounts over bit planes are exact, and within half a step for each dimension of the query before it was quantized.
* **Multivector values** (`MultiVectors`, `MultiVectorText`, `MultiVectorWire`, `MultiVectorForms`).  Text and binary forms read
  back what was written.

Scores are reals; the logarithm is a parameter that is positive above one and the norm of a Hadamard
chunk a parameter `s` with `s * s * chunk == 1`.  Pages are sequences of items or maps from keys to items;
`qsort` is sorting by the comparator; the clock, the live set, configuration switches and the memory limit
are parameters.  Floats of multivectors are their bit patterns, and their nine-digit text is a parameter
(`MultiVectorText.Lawful`) of which only invertibility is used.

`dafny verify dfyconfig.toml` verifies the project.

## Model

| member | source | states |
|---|---|---|
| `Accumulator.QueryAccumulator.AddTermScore` | src/pgturbohybrid_bm25_query.c:1027-1043 | adds a non-negative score and a match bit to one node, appends it to the touched list when new, keeps the indexed min-heap valid (heap order, back-indices, the k best of all touched nodes), and never lowers the threshold |
| `Accumulator.QueryAccumulator.UpdateTopK` | src/pgturbohybrid_bm25_query.c:940-972 | after one entry was raised, restores heap order and back-indices by raising, appending or replacing the root, and refreshes the threshold to the root once the heap is full |
| `Accumulator.QueryAccumulator.HeapSiftUp` | src/pgturbohybrid_bm25_query.c:885-898 | restores heap order above one place, keeping back-indices, scores and masks |
| `Accumulator.QueryAccumulator.HeapSiftDown` | src/pgturbohybrid_bm25_query.c:900-922 | restores heap order below one place, keeping back-indices, scores and masks |
| `Accumulator.QueryAccumulator.constructor` | src/pgturbohybrid_bm25_query.c:776-860 | an empty valid accumulator with room for k heap entries |
| `Accumulator.ThresholdIsKthLargest` | src/pgturbohybrid_bm25_query.c:924-938 | in every valid state with k touched nodes the threshold is exactly the k-th largest current score |
| `Accumulator.KthLargestIsUnique` | src/pgturbohybrid_bm25_query.c:924-938 | a score table has at most one k-th largest score |
| `Accumulator.KthLargestGrows` | src/pgturbohybrid_bm25_query.c:940-972 | when scores only rise and nodes only join, the k-th largest score never falls |
| `BoundedSelection.SelectTopN` | src/pgturbohybrid_am.c:1503-1538 | the bounded heap returns exactly the prefix of the full sort, for any strict order in which distinct items are comparable |
| `BoundedSelection.SiftUp` | src/pgturbohybrid_am.c:1463-1478 | restores the heap after an item was placed at its end, keeping its items |
| `BoundedSelection.SiftDown` | src/pgturbohybrid_am.c:1480-1501 | restores the heap after its root was replaced, keeping its items |
| `Ranking.UniqueTopK` | src/pgturbohybrid_bm25_query.c:2697-2708 | the k best of a set under a total order are one sequence: no two different sequences qualify |
| `Ranking.PruneKeepsTopK` | src/pgturbohybrid_bm25_query.c:2780-2871 | a subset that keeps every item not beaten by k kept ones has the same k best |
| `FinalSelection.SelectFinalTopK` | src/pgturbohybrid_bm25_query.c:2780-2871 | returns the k best matched entries of the accumulator by score descending, then node id ascending, ties included |
| `QueryEval.EvalIsSat` | src/pgturbohybrid_bm25_query.c:2229-2275 | the recursive evaluator over match bits is satisfaction of the query tree by the set of matched words |
| `QueryEval.TermsFacts` | src/pgturbohybrid_bm25_query.c:2496-2549 | term collection lists every word not under an odd number of NOTs exactly once |
| `QueryEval.CompiledAgreesIff` | src/pgturbohybrid_bm25_query.c:2324-2363 | the compiled form accepts what the evaluator accepts on all match masks if and only if each single term satisfies a query compiled to the OR mask, or the AND mask requires exactly what the tree requires |
| `QueryEval.PlainQueriesAgree` | src/pgturbohybrid_bm25_query.c:2277-2301 | for every query without NOT, and without PHRASE where OR occurs, compiled and recursive evaluation agree on all masks, repeated terms included |
| `QueryEval.PhraseUnderOrDisagrees` | src/pgturbohybrid_bm25_query.c:2346-2350 | a phrase beside an OR is accepted by the OR mask although the evaluator rejects it |
| `QueryEval.DoubleNegationDisagrees` | src/pgturbohybrid_bm25_query.c:2351-2355 | a doubly negated operand is demanded by the AND mask although the evaluator ignores it |
| `PostingIterators.PostingIterator.constructor` | src/pgturbohybrid_bm25_query.c:4243-4270 | a new iterator stands on the first live posting and has the whole live list ahead |
| `PostingIterators.PostingIterator.LoadChunk` | src/pgturbohybrid_bm25_query.c:4112-4220 | loads the next chunk of the chain, or becomes invalid at its end; what is ahead is the live list from that chunk on |
| `PostingIterators.PostingIterator.AdvanceValid` | src/pgturbohybrid_bm25_query.c:4222-4241 | moves to the next live posting across chunks without losing any live posting |
| `PostingIterators.PostingIterator.SeekTo` | src/pgturbohybrid_bm25_query.c:4292-4317 | what is ahead afterwards is exactly the live postings at or after the target, for any chunk layout |
| `PostingIterators.PostingIterator.AdvancePast` | src/pgturbohybrid_bm25_query.c:4332-4339 | what is ahead afterwards is exactly the live postings after the node |
| `PostingLists.LiveListFacts` | src/pgturbohybrid_bm25_query.c:4222-4241 | the live list of a chained posting list ascends strictly, each entry is within the bound of its chunk, and non-growing chunk bounds make every later score fit every earlier bound |
| `Bm25Scoring.BoundHolds` | src/pgturbohybrid_bm25_query.c:4341-4363 | the bound of a chunk, in each of its forms, is at least the score of any of its postings in a document of any length |
| `Bm25Scoring.WrittenIsValid` | src/pgturbohybrid_bm25_query.c:2873-2906 | a chunk with the metadata the writer stores satisfies the bound the search relies on once scored |
| `ScoreLaws.BoundIsAttained` | src/pgturbohybrid_bm25_query.c:3535-3545 | and no larger than it must be: from frequencies it is the score of the posting with the largest one in a document of a single word, from norms that of the posting with the largest one |
| `ActiveOrder.Sort` | src/pgturbohybrid_bm25_query.c:4365-4398 | sorts the active iterators by current node and, at equal nodes, by term, as a permutation |
| `WandSearch.FindPivot` | src/pgturbohybrid_bm25_query.c:4580-4601 | finds the first head at which the accumulated chunk bounds exceed the threshold, or shows that there is none |
| `WandSearch.RefreshActiveOrder` | src/pgturbohybrid_bm25_query.c:4400-4439 | drops exactly the exhausted iterators and leaves the others ordered by current node |
| `WandSearch.ScoreDocument` | src/pgturbohybrid_bm25_query.c:4638-4657 | sums the scores and match bits of all terms standing on the document: its complete score and mask |
| `WandSearch.KthScore` | src/pgturbohybrid_bm25_query.c:4441-4449 | the threshold read by the loop is the score of the k-th best accepted document |
| `WandSearch.Pass` | src/pgturbohybrid_bm25_query.c:4571-4688 | one turn of the loop follows the specified run: what iterators show, what the accumulator holds and the frontier move together, and the number of remaining postings falls |
| `WandSearch.ScoreBaseWand` | src/pgturbohybrid_bm25_query.c:4516-4694 | terminates with the accumulator holding exactly the documents of the specified WAND run, in strictly increasing node order, each once, with its complete score |
| `Wand.RunAccounts` | src/pgturbohybrid_bm25_query.c:4571-4688 | every accepted document is a match with its complete score, nodes strictly increase, and every match is accepted, dismissed by the fused bound, or left out once k were accepted (and then beaten by k, where bounds are safe) |
| `Wand.WandSuffices` | src/pgturbohybrid_bm25_query.c:4592-4597 | with bounds that cover every later score of a list and no fused bound, whatever WAND drops is beaten by k accepted documents |
| `Wand.WandIsExact` | src/pgturbohybrid_bm25_query.c:4516-4694 | under the same condition, selecting from what WAND accepted gives exactly the k best of all matching documents, ties included |
| `Wand.LargeBudgetAcceptsAll` | src/pgturbohybrid_bm25_query.c:4606-4636 | with room for every match, a match is missing only if the fused bound dismissed it, whatever the chunk bounds |
| `Wand.NonIncreasingIsSafe` | src/pgturbohybrid_bm25_query.c:4341-4363 | bounds that never grow along a list cover every later score |
| `Wand.ExactIffSafe` | src/pgturbohybrid_bm25_query.c:4592-4597 | a list is searched exactly in every query with safe lists, under every live set common to all lists and every budget, if and only if each of its bounds (document 0 aside) covers every later score of the list |
| `Wand.UnsafeIsInexact` | src/pgturbohybrid_bm25_query.c:4592-4597 | for any list with a later score above an earlier bound there are a second safe list and a live set, the same for both, for which the early stop returns the wrong document |
| `Wand.StopsTooEarly` | src/pgturbohybrid_bm25_query.c:4592-4597 | two lists of which one starts with document 0, and whose bounds promise nothing better after it: only document 0 is accepted |
| `Wand.TrapIsInexact` | src/pgturbohybrid_bm25_query.c:4592-4597 | that is the wrong answer when another document scores more |
| `Wand.RunStep` | src/pgturbohybrid_bm25_query.c:4599-4688 | one turn at the pivot: seek, prune or visit, after which fewer postings remain |
| `AndSearch.AndSuffices` | src/pgturbohybrid_bm25_query.c:4696-4835 | what the conjunctive loop drops is beaten by k accepted documents, for any chunk layout and any driver |
| `AndSearch.AndIsExact` | src/pgturbohybrid_bm25_query.c:4696-4835 | selecting from what the conjunctive loop accepted gives exactly the k best documents that contain all required terms, ties included |
| `AndSearch.MissingTerm` | src/pgturbohybrid_bm25_query.c:4729-4766 | a required term without live postings means that nothing is accepted |
| `AndSearch.RarestTerm` | src/pgturbohybrid_bm25_query.c:4725-4742 | the driver is the first term of least document frequency |
| `AndSearch.VerifyDocument` | src/pgturbohybrid_bm25_query.c:4786-4810 | the driver document is verified if and only if all terms have it, and then gets its complete score whatever the driver |
| `AndSearch.ScoreBaseAnd` | src/pgturbohybrid_bm25_query.c:4696-4835 | terminates with the accumulator holding exactly the documents of the specified conjunctive run |
| `Exhaustive.ScoreExhaustively` | src/pgturbohybrid_bm25_query.c:5095-5234 | scoring every live posting leaves for every node its complete score and mask |
| `Exhaustive.ScoreDelta` | src/pgturbohybrid_bm25_query.c:2410-2472 | adding the delta postings on top leaves complete scores for delta documents and base entries unchanged |
| `Exhaustive.TotalsAreMatching` | src/pgturbohybrid_bm25_query.c:5095-5234 | selecting from such totals is selecting from all matching documents |
| `TopKSearch.ScoreBase` | src/pgturbohybrid_bm25_query.c:5054-5088 | whichever strategy runs, the accumulator holds enough of the matches to select from, exactly so wherever the strategy is exact |
| `TopKSearch.TopK` | src/pgturbohybrid_bm25_query.c:4837-5289 | the whole branch returns exactly the k best of all matching base and delta documents by score descending and node id ascending, unless WAND runs over growing bounds or with a fused bound; in every case it returns the k best of a kept set from which, given room, only dismissed documents are missing |
| `TopKSearch.StrategiesAgree` | src/pgturbohybrid_bm25_query.c:5054-5088 | selecting from what the WAND loop or the AND loop accepted gives the same sequence as exhaustive scoring, wherever bounds are safe or all terms are required |
| `TopKSearch.JoinedMatching` | src/pgturbohybrid_bm25_query.c:5236-5252 | the matches of base and delta together are the matches of each, complete scores included |
| `TopKSearch.StoredIsWellFormed` | src/pgturbohybrid_bm25_query.c:4341-4363 | stored lists meet what the search relies on, and lists whose chunk bounds never grow are safe |
| `StoredIndex.LoadedIsWritten` | src/pgturbohybrid_bm25_query.c:4112-4220 | what an iterator loads from a written page is the chunk that was written, with the summary fields the bounds rely on |
| `StoredIndex.PagesAreValid` | src/pgturbohybrid_bm25_build.c:1815-1861 | the pages written for a sorted list are a list the search accepts, for any chunk layout |
| `StoredIndex.PostingShown` | src/pgturbohybrid_bm25_query.c:4222-4241 | a written posting of a visible document is shown, with its score |
| `StoredIndex.PagesShow` | src/pgturbohybrid_bm25_query.c:4222-4241 | an iterator over the written pages shows exactly the written postings of visible documents |
| `StoredIndex.ChainLoads` | src/pgturbohybrid_bm25_build.c:1693-1752 | the linked cells of a list load as its chunks |
| `IndexSearch.LexiconFinds` | src/pgturbohybrid_bm25_build.c:2560-2668 | looking a term up in a written lexicon gives exactly its postings, in non-empty chunks |
| `IndexSearch.LexiconCounts` | src/pgturbohybrid_bm25_build.c:2560-2668 | and its document frequency is their number |
| `IndexSearch.TermIsSearchable` | src/pgturbohybrid_bm25_query.c:5212-5222 | a stored term is a list the search accepts; it shows the term in exactly the documents in which a query sees it in the base, each with the score of its stored posting |
| `IndexSearch.DeltaIsSearchable` | src/pgturbohybrid_bm25_query.c:2410-2472 | the delta entries of a term are a list the search accepts; it shows exactly what a query sees of the term in the delta, each document with the score of its segment, in whatever order the entries are delivered |
| `IndexSearch.TermAgrees` | src/pgturbohybrid_bm25_query.c:5212-5236 | base and delta list of a term together give every document the share that its stored posting or segment has, and zero where a query sees none |
| `IndexSearch.MatchesAreAnswers` | src/pgturbohybrid_bm25_query.c:4837-5289 | the matches over the lists, scores included, are the answers defined by the stored postings that the query sees |
| `IndexSearch.SearchIndex` | src/pgturbohybrid_bm25_query.c:4837-5289 | after any run of inserts and compactions, wherever the strategy is exact, the result is the k best answers by score and then node id, where answers and scores are those of the stored postings the query sees; in every case it is the k best of some answers, of which, given room for all, only dismissed ones are missing |
| `DenseAccumulator.AddInPlace` | src/pgturbohybrid_bm25_query.c:974-1043 | adding a score to a stamped entry in place is adding it in the score table of the query; nodes beyond the capacity are refused |
| `DenseAccumulator.StartQuery` | src/pgturbohybrid_bm25_query.c:776-860 | a new query starts from the empty score table, whatever earlier queries left in the arrays |
| `Statistics.DfAtMostDocs` | src/pgturbohybrid_bm25_query.c:2365-2379 | in every stored index no term is in more documents than the counters count, dead ones included on both sides |
| `Statistics.IdfIsPositive` | src/pgturbohybrid_bm25_query.c:4555-4557 | so the inverse document frequency of every term is positive, for any logarithm that is positive above one |
| `Statistics.DeliveredCount` | src/pgturbohybrid_bm25_query.c:1788-1868 | the delta entries delivered for a term are as many as its postings in live delta documents |
| `Statistics.QuantizedIsNear` | src/pgturbohybrid_bm25_build.c:203-230 | the quantized norm is the nearest one: it is half a unit off at most, and never clamped |
| `ScoreLaws.NormLaw` | src/pgturbohybrid_bm25_query.c:2873-2884 | the norm is linear in the relative length with slope k1 * b, and k1 at average length |
| `ScoreLaws.PostingScoreLaw` | src/pgturbohybrid_bm25_query.c:2873-2884 | the score of a posting, times frequency plus norm, is idf * tf * (k1 + 1) |
| `ScoreLaws.PrecomputedLaw` | src/pgturbohybrid_bm25_query.c:2886-2894 | the score of a quantized norm q is q / 65535 of idf * (k1 + 1) |
| `ScoreLaws.RarityLaw` | src/pgturbohybrid_bm25_query.c:4555-4557 | the argument of the logarithm is the only number that, times df + 0.5, is the number of documents plus one |
| `ScoreLaws.RarityFalls` | src/pgturbohybrid_bm25_query.c:4555-4557 | it falls strictly as the document frequency grows |
| `ScoreLaws.IdfFalls` | src/pgturbohybrid_bm25_query.c:5112-5114 | for a growing logarithm the idf of the rarer term is strictly larger, in every stored index |
| `ScoreLaws.DocFreqCounts` | src/pgturbohybrid_bm25_query.c:5107-5111 | the document frequency is the number of base documents with the term, dead or alive, plus the number of live delta documents with it |
| `ScoreLaws.CountsOf` | src/pgturbohybrid_bm25_query.c:4533-4540 | number of documents and average length by which a query scores: all stored documents, and as often as there are these, the average adds up to all their lengths |
| `ScoreLaws.FiguresExist` | src/pgturbohybrid_bm25_query.c:4533-4557 | every stored index, term and length has such figures: document count, average length, rarity and norm |
| `ScoreLaws.ShareLaw` | src/pgturbohybrid_bm25_query.c:2873-2884 | without quantized norms, what a term adds to a document is determined by an equation over counts and lengths of the stored index, frequency and length of the document |
| `ScoreLaws.StoredShareLaw` | src/pgturbohybrid_bm25_build.c:203-230 | with quantized norms, what a term adds to a base document: the idf of the counts of the moment, and the whole number nearest to the frequency factor by the average length of the last build |
| `ScoreLaws.DeltaShareLaw` | src/pgturbohybrid_bm25_query.c:2410-2472 | a delta document is scored by that equation with or without quantized norms |
| `ScoreLaws.AnswerScore` | src/pgturbohybrid_bm25_query.c:4638-4657 | an answer satisfies the query by the terms it has, and its score is the sum of what these add, nothing for the others |
| `ScoreLaws.RarerScoresMore` | src/pgturbohybrid_bm25_query.c:4555-4557 | of two documents alike in frequency and length the one with the rarer term is scored higher |
| `Statistics.TermStatistics` | src/pgturbohybrid_bm25_query.c:5097-5114 | computes the document frequency of every query term, from lexicon entry and delivered delta entries, and its inverse document frequency |
| `Statistics.Search` | src/pgturbohybrid_bm25_query.c:4837-5289 | with counters, document frequencies, average length and stored norms taken from the index as it stands, and wherever the strategy is exact, the result is the k best answers by the scores these give; otherwise the k best of some of them, of which, given room for all, only dismissed ones are missing; ScoreLaws says what these scores are |
| `ScoreLaws.RarerPrecedes` | src/pgturbohybrid_bm25_query.c:4837-5289 | of two answers with one term each, alike in frequency and length, the one with the rarer term is listed before the other in every result that lists the other |
| `ScoreLaws.ResultOrder` | src/pgturbohybrid_bm25_query.c:2697-2708 | the k best answers come by score downwards, at equal scores by node upwards, each once; what is left out belongs behind all of them |
| `CompactionAnswers.BaseShares` | src/pgturbohybrid_bm25_build.c:2807-2940 | before and after a compaction a base document is scored by the same frequency and length, with the norm, average length and idf of the moment |
| `CompactionAnswers.DeltaShares` | src/pgturbohybrid_bm25_build.c:2942-3015 | a delta document is scored from frequency and length before, and as a stored posting of the same frequency and length after |
| `CompactionAnswers.CompactionKeepsTerms` | src/pgturbohybrid_bm25_build.c:3075-3158 | a query finds the same documents by the same terms before and after |
| `CompactionAnswers.CountedDocs` | src/pgturbohybrid_bm25_build.c:3017-3073 | a compaction never counts more documents than were counted before, and as many if and only if all are live and those of the base have a length; the lengths then add up to the same total |
| `CompactionAnswers.CompactedDf` | src/pgturbohybrid_bm25_build.c:2335-2558 | the document frequency of a term afterwards: its kept base postings and the delta postings of documents live at the compaction |
| `CompactionAnswers.StatisticsKeptIff` | src/pgturbohybrid_bm25_query.c:4533-4556 | document count, total length and document frequencies of a query are the same before and after if and only if every counted document is live at the compaction, those of the base with a length, and no delta document with a query term has died since |
| `CompactionAnswers.StatisticsKeptNow` | src/pgturbohybrid_bm25_query.c:4533-4556 | for a query at the time of the compaction: if and only if every counted document is kept |
| `CompactionAnswers.PlainScoreKeptIff` | src/pgturbohybrid_bm25_query.c:2418-2462 | without quantized norms, a document with a term keeps its score under all parameters and logarithms if and only if the rarity of the term and the effective average length are the same before and after |
| `CompactionAnswers.CompactionKeepsAnswers` | src/pgturbohybrid_bm25_build.c:3075-3158 | without quantized norms, where these two are the same for every query term, the query has the same answers, scores included, before and after |
| `CompactionAnswers.KeptDocumentsKeepAnswers` | src/pgturbohybrid_bm25_build.c:3075-3158 | in particular where every counted document is kept and no delta document with a query term has died since |
| `CompactionAnswers.QuantizedBaseKeptIff` | src/pgturbohybrid_bm25_build.c:1968-1985 | with quantized norms, and where the statistics are kept, a base document keeps the score of a term if and only if its norm by the average length of all counted documents is its old norm |
| `CompactionAnswers.QuantizedDeltaKeptIff` | src/pgturbohybrid_bm25_build.c:203-230 | and a delta document keeps it if and only if its frequency factor is a whole number of quantization units; in any case it changes by half a unit at most |
| `CompactionAnswers.QuantizedTermKeptIff` | src/pgturbohybrid_bm25_build.c:1968-1985 | so a term keeps its scores in all documents if and only if these hold of all its postings that the query sees |
| `CompactionAnswers.QuantizedAnswersKept` | src/pgturbohybrid_bm25_build.c:3075-3158 | a query all of whose terms do so has the same answers, scores included |
| `CompactionExample.BestAnswerChanges` | src/pgturbohybrid_bm25_build.c:3033-3050 | with the default k1 and b and any logarithm positive above one: an index in which one document has died, and a query whose best answer is another one after the compaction that drops it |
| `CompactionExample.EmptyDocumentDropsOut` | src/pgturbohybrid_bm25_build.c:3126-3134 | a live document without words is counted by the compaction that takes it from the delta and no more by the next one |
| `HotCache.FreedIsOk` | src/pgturbohybrid_bm25_query.c:4007-4026 | unlinking any entry keeps hash table and doubly linked list in agreement, the byte total equal to the sum of the entries, and the order by strictly decreasing last use |
| `HotCache.AddedIsOk` | src/pgturbohybrid_bm25_query.c:4035-4099 | pushing a new entry at the head keeps the same invariant and the limit |
| `HotCache.MovedIsOk` | src/pgturbohybrid_bm25_query.c:3926-3935 | touching an entry moves it to the head and keeps the invariant |
| `HotCache.OldestEntry` | src/pgturbohybrid_bm25_query.c:4028-4033 | the tail is the entry used longest ago |
| `HotCache.EvictedIsOk` | src/pgturbohybrid_bm25_query.c:4028-4033 | evicting the tail keeps the invariant and removes exactly the last entry of the list |
| `HotCache.Cache.Lookup` | src/pgturbohybrid_bm25_query.c:3937-4005 | hits exactly the cached keys; a hit returns what decoding the page gives and moves the entry to the front, a miss changes nothing |
| `HotCache.Cache.EvictOne` | src/pgturbohybrid_bm25_query.c:4028-4033 | forgets the last entry of the list and no other |
| `HotCache.Cache.MakeRoom` | src/pgturbohybrid_bm25_query.c:4067-4071 | evicts from the tail until the new entry fits and no more: with one entry fewer evicted it would not have fitted |
| `HotCache.Cache.Store` | src/pgturbohybrid_bm25_query.c:4035-4099 | the stored chunk becomes the first entry, in front of a most recently used part of the others; a chunk larger than the limit changes nothing |
| `HotCache.Cache.LoadChunk` | src/pgturbohybrid_bm25_query.c:4112-4220 | hit or miss, the iterator gets what decoding the page gives; the cache stays consistent and within its limit, and an eligible chunk is afterwards the one used last |
| `FusedBound.DenseContributionForBound` | src/pgturbohybrid_bm25_query.c:4451-4476 | the binary search finds the contribution of a node, zero when it is absent |
| `FusedBound.CanPruneCandidate` | src/pgturbohybrid_bm25_query.c:4478-4499 | prunes exactly when the largest fused score reachable with the given BM25 bound stays below the k-th |
| `FusedPruning.PrepareFastWeightedBound` | src/pgturbohybrid_am.c:2089-2147 | the bound is on exactly when there are finalK dense candidates, knows every contribution by node, and its k-th score is the largest one that finalK candidates reach by their dense part alone |
| `FusedPruning.PrunedIff` | src/pgturbohybrid_bm25_query.c:4478-4499 | a candidate is dismissed if and only if no BM25 score up to its bound would bring its fused score to the k-th |
| `FusedPruning.DismissedIsWeak` | src/pgturbohybrid_bm25_query.c:4478-4499 | a dismissed document has a fused score below the k-th, with or without its BM25 part |
| `FusedPruning.AlikeOrWeak` | src/pgturbohybrid_am.c:2664-2674 | a node is the same in the pruned and the unpruned merge, or weak wherever it occurs |
| `FusedPruning.AgreeingHeads` | src/pgturbohybrid_am.c:2715-2766 | two rankings that agree on a common head, which precedes all else in both, have the same first results |
| `FusedPruning.PruningIsInvisible` | src/pgturbohybrid_am.c:2715-2766 | with alpha in [0, 1], at least finalK dense candidates and only dismissed documents missing, the first finalK fused results are those of the unpruned search in the same order: nodes, heap tids, parts and fused scores |
| `FusedPruning.SearchPruningIsInvisible` | src/pgturbohybrid_bm25_query.c:4606-4636 | the same for the BM25 branch as it runs, over any chunk layout, when its budget has room for every match |
| `GenerationArrays.FusionArray.Begin` | src/pgturbohybrid_am.c:2823-2859 | every use starts as an empty map with enough room, whatever earlier uses, growth or counter wrap-around left behind |
| `GenerationArrays.FusionArray.Put` | src/pgturbohybrid_am.c:2861-2933 | stamping an entry changes the map at that node only |
| `GenerationArrays.DenseEntries.Begin` | src/pgturbohybrid_bm25_query.c:776-860 | every use of the dense accumulator starts as an empty map with enough room, across growth and counter wrap-around |
| `GenerationArrays.DenseEntries.Lookup` | src/pgturbohybrid_bm25_query.c:974-1025 | finds exactly the entries of the current use, creates a blank one on request, and refuses nodes beyond the capacity |
| `Fusion.MergesStep` | src/pgturbohybrid_am.c:1755-1802 | absorbing one more candidate turns a merge of the items into a merge of the items with it |
| `Fusion.GathersIsUnique` | src/pgturbohybrid_am.c:1755-1813 | the merged result of a node is determined by the items: both parts, and the heap tid of the dense branch where there is one |
| `Fusion.OrderDoesNotMatter` | src/pgturbohybrid_am.c:1804-1813 | a merge does not depend on the order of the items |
| `FusionPaths.FuseGenerationArray` | src/pgturbohybrid_am.c:2861-2933 | the generation-array path lists each node once, with all its parts |
| `FusionPaths.NextPowerOfTwo` | src/pgturbohybrid_am.c:677-685 | a power of two, at least the value and less than twice it |
| `FusionPaths.FusionHashSlotCount` | src/pgturbohybrid_am.c:687-702 | a power of two above the number of items, at least 16 |
| `Probing.FindMergeSlot` | src/pgturbohybrid_am.c:719-760 | probing, by node id or heap tid, terminates at the slot of the key or, when it is absent, at a free slot, since slots exceed items |
| `Probing.CollectSlots` | src/pgturbohybrid_am.c:3194-3210 | sweeping the slots collects exactly the stored items that pass the filter, each once |
| `Probing.TableStep` | src/pgturbohybrid_am.c:719-760 | writing the item of a key into the slot found for it keeps every key where probing finds it, each once |
| `FusionPaths.FuseHash` | src/pgturbohybrid_am.c:3154-3210 | the hash path lists each node once, with all its parts |
| `FusionPaths.FuseSorted` | src/pgturbohybrid_am.c:3235-3276 | the sort-merge path lists each node once, with all its parts |
| `FusedRanking.BetterIsWeakOrder` | src/pgturbohybrid_am.c:637-675 | the result comparator is a strict weak order |
| `FusedRanking.MergeIsFusedSet` | src/pgturbohybrid_am.c:2604-2674 | scoring the merged list of any path gives the same set of results, each once |
| `FusedRanking.FinalizeFused` | src/pgturbohybrid_am.c:2715-2766 | the final list is the ranked prefix of that set |
| `FusedRanking.FuseCandidates` | src/pgturbohybrid_am.c:2935-3294 | on every path the result lists fused results, over the candidates alone: each has the parts of its node, its score is what the branches add (times k + rank the weight of the branch; nothing for an absent part), they come by score, at equal scores those of both branches first, then by dense rank, BM25 rank and node, nothing better is left out, and there are as many as finalK, union cap and active limit allow |
| `FusedRanking.FusedSetIs` | src/pgturbohybrid_am.c:2604-2674 | the set that is ranked holds exactly the fused results of the candidates |
| `FusedRanking.FinalTarget` | src/pgturbohybrid_am.c:775-811 | the number of results: the largest that the number of merged ones, a union cap and, without an active limit, finalK allow |
| `FusionLaws.AheadPrecedes` | src/pgturbohybrid_am.c:1816-1826 | with positive weights, a node ahead in every branch in which the other occurs precedes it in the final list: by rank for reciprocal rank fusion, by similarity and score for fast weighted fusion |
| `FusedRanking.PathsAgree` | src/pgturbohybrid_am.c:3154-3285 | hence the three paths return the same sequence |
| `DocumentFusion.TakeMerges` | src/pgturbohybrid_am.c:1755-1802 | merging into hash slots by heap tid leaves one document for each tid, with exactly its dense, multivector and BM25 parts |
| `DocumentFusion.JoinMerges` | src/pgturbohybrid_am.c:3235-3276 | so does joining the neighbours of the array sorted by heap tid |
| `DocumentFusion.SameDocuments` | src/pgturbohybrid_am.c:3154-3285 | both paths find the same documents with the same parts, however the sort leaves items of one document and node |
| `DocumentFusion.NodesAgreeIff` | src/pgturbohybrid_am.c:3154-3285 | both leave a document with the same node id if and only if its last candidate, in the order dense, multivector, BM25, has the least node id of all its candidates |
| `DocumentFusion.NodesDiffer` | src/pgturbohybrid_am.c:3154-3285 | a document found as node 1 by its vector and as node 2 by its words is left with node 2 on the hash path and node 1 on the sort path |
| `DocumentRanking.BetterIsWeakOrder` | src/pgturbohybrid_am.c:637-675 | the comparator with the multivector rank is a strict weak order |
| `DocumentRanking.RanksTell` | src/pgturbohybrid_am.c:637-675 | two merged documents never have all three ranks in common, so the comparator never comes to their node ids |
| `DocumentRanking.DocumentPathsAgree` | src/pgturbohybrid_am.c:3154-3285 | hence both paths return the same documents with the same parts and fused scores in the same order, whatever node ids they leave |
| `DocumentPaths.FuseHash` | src/pgturbohybrid_am.c:3154-3210 | the hash path by heap tid lists each document once, with what was merged into its slot |
| `DocumentPaths.FuseSorted` | src/pgturbohybrid_am.c:3235-3276 | the sort path by heap tid lists each document once, with what was joined in its group |
| `DocumentPaths.FinalizeDocuments` | src/pgturbohybrid_am.c:2715-2766 | the final list is the ranked prefix of the scored documents |
| `DocumentPaths.FuseDocuments` | src/pgturbohybrid_am.c:3132-3285 | on both paths the result lists fused documents, over the candidates of the three branches alone: parts, scores as what the branches add, order by score, documents of both kinds first, then dense, multivector and BM25 rank, nothing better left out, and as many as finalK, union cap and active limit allow |
| `DocumentLists.FusedScoreLaw` | src/pgturbohybrid_am.c:1816-1826 | the fused score of a document is the sum of what its parts add; by similarity the multivector part counts only where there is no dense one |
| `DocumentLists.AheadPrecedes` | src/pgturbohybrid_am.c:1816-1826 | reciprocal rank fusion with positive weights: a document ranked ahead in every one of the three branches in which the other occurs precedes it in the final list |
| `TermTuples.BeforeIsWeakOrder` | src/pgturbohybrid_bm25_build.c:595-613 | the term comparator (hash, bytes, node) is a strict weak order |
| `TermTuples.SortedIsUnique` | src/pgturbohybrid_bm25_build.c:744-754 | distinct tuples have one sorted sequence, however it was obtained |
| `TermTuples.DfCounts` | src/pgturbohybrid_bm25_build.c:2560-2668 | the document frequency counted by node changes is the number of postings of the term |
| `TermTuples.ChunkedFlattens` | src/pgturbohybrid_bm25_build.c:1815-1861 | chunks are non-empty, at most the chunk size, and together the whole list |
| `TermTuples.ChunksInOrder` | src/pgturbohybrid_bm25_build.c:2335-2558 | flushing full chunks as postings arrive gives the chunk boundaries of slicing the whole list |
| `LexiconLaws.EntriesDescribe` | src/pgturbohybrid_bm25_build.c:2560-2668 | every entry holds exactly the postings of its term, by ascending node, in chunks that are full but for the last; df is their number, cf the sum of their frequencies modulo 2^32, the largest frequency one of them |
| `LexiconLaws.EntriesInOrder` | src/pgturbohybrid_bm25_build.c:595-613 | entries come by hash, then length, then the first differing byte, each term once |
| `LexiconLaws.EveryTermHasEntry` | src/pgturbohybrid_bm25_build.c:2560-2668 | every term of the tuples has an entry |
| `SpillMerge.SmallestIsNext` | src/pgturbohybrid_bm25_build.c:2177-2191 | the smallest head of sorted runs is the next tuple of the sort of all of them |
| `SpillMerge.Merger.Push` | src/pgturbohybrid_bm25_build.c:2248-2254 | pushes a cursor and keeps the heap covering every run that has tuples left |
| `SpillMerge.Merger.Pop` | src/pgturbohybrid_bm25_build.c:2264-2281 | pops the smallest cursor and keeps the heap |
| `SpillMerge.Merger.Peek` | src/pgturbohybrid_bm25_build.c:2256-2262 | the root is the next tuple of the merged sequence, absent exactly at its end |
| `SpillMerge.Merger.Advance` | src/pgturbohybrid_bm25_build.c:2154-2175 | consumes exactly the next tuple of the merged sequence |
| `SpillMerge.WriteFromRuns` | src/pgturbohybrid_bm25_build.c:2335-2558 | merging the runs writes the lexicon (terms, df, cf, largest tf, chunk boundaries, postings) of the sort of all their tuples |
| `SpillMerge.WriteInMemory` | src/pgturbohybrid_bm25_build.c:2560-2668 | writes the lexicon of the sorted tuples |
| `SpillMerge.Collector.SpillTermRun` | src/pgturbohybrid_bm25_build.c:756-787 | moves the tuples in memory to a sorted run; nothing added is lost or duplicated |
| `SpillMerge.Collector.CheckBudget` | src/pgturbohybrid_bm25_build.c:700-722 | adds up the document array by capacity, the tuples, their bytes and the node map; above the limit it moves the tuples to one more sorted run if that is allowed and there are any, else fails; below it changes nothing; where node map and document array fit and spilling is allowed it never fails and memory is within the budget afterwards |
| `DocLengths.ListsMore` | src/pgturbohybrid_bm25_build.c:1001-1014 | a document not listed before makes the table of lengths grow by one and the total by its length |
| `DocLengths.WriteDocStats` | src/pgturbohybrid_bm25_build.c:1487-1545 | writes the table of lengths of the listed documents |
| `SpillMerge.Collector.AppendBuildDoc` | src/pgturbohybrid_bm25_build.c:802-822 | lists one more document, counts it and its length; growing the doubling document array may spill terms, and fails only when the budget does not hold node map and documents |
| `SpillMerge.Collector.AppendBuildTerm` | src/pgturbohybrid_bm25_build.c:1016-1036 | adds the tuple (an empty term is skipped, a zero frequency counts as one), whatever spills happen on the way, and leaves memory within an ample budget |
| `SpillMerge.Collector.WriteLexicon` | src/pgturbohybrid_bm25_build.c:2335-2668 | for every budget and every placement of spills, writes the lexicon of the in-memory sort of everything added |
| `Varint.VarintRoundTrip` | src/pgturbohybrid_bm25_build.c:152-174 | every 32-bit value is read back, in the predicted length of at most five bytes |
| `Varint.AppendVarint` | src/pgturbohybrid_bm25_build.c:165-174 | appends the seven-bit groups, low first |
| `Varint.ReadVarint` | src/pgturbohybrid_bm25_build.c:232-251 | reads exactly what the specification reads, or fails with it |
| `Varint.Uint16RoundTrip` | src/pgturbohybrid_bm25_build.c:176-181 | a 16-bit value is read back |
| `CodecLaws.VarintIs` | src/pgturbohybrid_bm25_build.c:165-174 | the seven-bit groups of the bytes, low first, make the value, the high bit is set on all but the last, and the last is not zero unless it is alone |
| `CodecLaws.VarintIsUnique` | src/pgturbohybrid_bm25_build.c:165-174 | no other such bytes make the value |
| `PostingsCodec.RoundTrip` | src/pgturbohybrid_bm25_build.c:294-471 | decoding any tuple that encodes a node-sorted chunk returns the same node ids, frequencies and norms, in each of the four encodings |
| `PostingsCodec.DecodePostings` | src/pgturbohybrid_bm25_build.c:294-471 | the decoding loops compute the specified decoding, errors included |
| `PostingsCodec.WritePostingsChunk` | src/pgturbohybrid_bm25_build.c:1863-1998 | chooses the encoding as specified and produces a tuple that encodes the chunk |
| `CodecLaws.ChosenIs` | src/pgturbohybrid_bm25_build.c:1863-1998 | offsets if and only if the last node is at most 65535 beyond the first, in columns exactly when there are norms; else deltas if and only if no two neighbours are farther apart than that; else varints |
| `CodecLaws.FixedLayout` | src/pgturbohybrid_bm25_build.c:1863-1998 | where the fixed-width encodings keep offset or step and frequency of each posting, low byte first |
| `CodecLaws.NormLayout` | src/pgturbohybrid_bm25_build.c:1863-1998 | where the norms are |
| `CodecLaws.VarintLayout` | src/pgturbohybrid_bm25_build.c:1863-1998 | a varint chunk is the varints of step and frequency of each posting, one after the other, and nothing else |
| `PostingsChain.WalkChain` | src/pgturbohybrid_bm25_build.c:1693-1752 | walking a chain of linked chunks gives back the postings from any chunk on |
| `PostingsChain.PostingsStore.WritePostings` | src/pgturbohybrid_bm25_build.c:1815-1861 | writing a list in chunks and linking them makes the whole list readable from the first chunk, and leaves earlier items alone |
| `DeltaStore.BucketsDeliver` | src/pgturbohybrid_bm25_query.c:1919-2030 | for every query and live set, the needed hash buckets hold exactly the passing entries of the whole delta (term, node, frequency, length, tid), each as often |
| `DeltaStore.Delta.AppendDelta` | src/pgturbohybrid_bm25_build.c:3522-3689 | appends the document to the chain and each of its postings to its bucket, keeping the two in agreement, and raises the generation |
| `DeltaStore.Delta.ScanDocs` | src/pgturbohybrid_bm25_query.c:2032-2175 | scanning the chain delivers exactly the passing entries in order |
| `DeltaStore.Delta.ReadBuckets` | src/pgturbohybrid_bm25_query.c:1919-2030 | reads the needed buckets only |
| `DeltaStore.Delta.Lookup` | src/pgturbohybrid_bm25_query.c:2032-2053 | whichever reader runs, the entries are those of the scan |
| `DeltaStore.Delta.Reset` | src/pgturbohybrid_bm25_build.c:3017-3073 | empties chain and buckets and raises the generation |
| `Compaction.SegmentsAreEntries` | src/pgturbohybrid_bm25_build.c:3522-3689 | the delta holds exactly the entries of its documents: each term with its frequency, and node, length and heap tid of the document |
| `Compaction.LexiconKeeps` | src/pgturbohybrid_bm25_build.c:2807-2940 | reading a written lexicon gives back the tuples it was written from |
| `Compaction.CollectBase` | src/pgturbohybrid_bm25_build.c:2807-2940 | collects exactly the base postings of live documents with a length; never fails within an ample budget |
| `Compaction.CollectDocs` | src/pgturbohybrid_bm25_build.c:3126-3134 | lists exactly the live base documents with a length, each once, with their number and total length |
| `Compaction.CollectDelta` | src/pgturbohybrid_bm25_build.c:2942-3015 | adds exactly the delta postings of live documents, and lists each such document once unless seen; never fails within a budget that is ample for the documents |
| `Compaction.CollectAll` | src/pgturbohybrid_bm25_build.c:3126-3140 | collects exactly the postings a query sees, and lists exactly the documents that have a length afterwards, each once, with their number and total length |
| `Compaction.CollectedIsVisible` | src/pgturbohybrid_bm25_build.c:2807-3015 | what is collected is exactly what a query sees in base and delta |
| `Compaction.VisibleRestricts` | src/pgturbohybrid_bm25_query.c:5212-5214 | with fewer live nodes a query sees exactly the part that belongs to them |
| `Compaction.VisibleAfter` | src/pgturbohybrid_bm25_build.c:3075-3158 | after compaction a query sees in the base what it saw in base and delta before, with the live nodes of the compaction and of any later time |
| `Compaction.CompactionKeeps` | src/pgturbohybrid_bm25_build.c:3075-3158 | compaction keeps the stored invariant (sorted distinct postings, fresh delta documents) and the visible posting relation, now and later |
| `Compaction.InsertKeeps` | src/pgturbohybrid_bm25_build.c:3522-3689 | an insert keeps the stored invariant |
| `Compaction.Index.Insert` | src/pgturbohybrid_bm25_build.c:3522-3689 | after any run of inserts and compactions, another insert keeps the index valid and adds one delta document; a compaction that was due stays due |
| `Compaction.CollectVisible` | src/pgturbohybrid_bm25_build.c:3122-3150 | within an ample budget writes the lexicon of what a query sees, the lengths of the documents kept, and counters equal to their number and total length |
| `Compaction.Index.Compact` | src/pgturbohybrid_bm25_build.c:3100-3157 | the new base takes the place of base and delta, or, when memory does not suffice, nothing changes; counters and lengths of the index agree again, and what queries see with this and every later live set is the same |
| `Compaction.Index.MaybeCompact` | src/pgturbohybrid_bm25_build.c:3075-3158 | compacts only if there are delta documents and a hundred times their number is at least threshold times the larger of one and the number of base documents, and then always, given an ample budget; what queries see is unchanged for the live nodes of the compaction and every later live set, and after a compaction the delta is empty and the generation greater |
| `Compaction.Index.DueMeans` | src/pgturbohybrid_bm25_build.c:3091-3098 | the condition over the stored contents; at threshold zero every non-empty delta is compacted |
| `Rotation.BlockDoubles` | src/pgturbohybrid_graph_utils.c:1174-1185 | a Hadamard butterfly over two halves doubles the inner product |
| `Rotation.DotIsLawful` | src/pgturbohybrid_graph_utils.c:1239-1302 | the inner product is additive over ranges, doubled by butterflies, restored by the scale and unchanged by swaps |
| `Rotation.ChunksPreserve` | src/pgturbohybrid_graph_utils.c:1239-1302 | the greedy power-of-two chunks preserve the inner product for any dimension |
| `Rotation.RotationPreserves` | src/pgturbohybrid_graph_utils.c:1304-1316 | in exact arithmetic the whole rotation preserves the inner product of any two vectors of any dimension |
| `Rotation.ChunkSize` | src/pgturbohybrid_graph_utils.c:1255-1259 | the chunk is the largest power of two that fits |
| `Rotation.RotatePermute` | src/pgturbohybrid_graph_utils.c:1144-1160 | the seeded shuffle in place, every swap index in range |
| `Rotation.RotateHadamardChunks` | src/pgturbohybrid_graph_utils.c:1239-1302 | the in-place butterflies and scaling compute the specified transform, every index in range |
| `RotationForms.RotateVector` | src/pgturbohybrid_graph_utils.c:1304-1316 | the in-place rotation leaves the one vector that a pass, and then three times a seeded shuffle and a pass, lead to from the input, with NaN components replaced by zero |
| `RotationForms.ChunkSums` | src/pgturbohybrid_graph_utils.c:1174-1302 | component i of a chunk is the norm of the sum of its components, component j with the sign (-1)^(number of common bits of i and j) |
| `RotationForms.ChunksArePass` | src/pgturbohybrid_graph_utils.c:1239-1302 | the loops over levels and chunks are such a pass: one chunk of 2^e for each bit e of the dimension, the largest first |
| `RotationForms.InSomeChunk` | src/pgturbohybrid_graph_utils.c:1249-1300 | every component is in such a chunk |
| `RotationForms.PassIsUnique` | src/pgturbohybrid_graph_utils.c:1239-1302 | hence a pass is determined by these sums |
| `RotationForms.PermutedIsShuffle` | src/pgturbohybrid_graph_utils.c:1144-1160 | the swaps are a shuffle: place p takes the position at index (state >> 32) % (p + 1) of those that remain |
| `RotationForms.OrderIsBijective` | src/pgturbohybrid_graph_utils.c:1144-1160 | no position is drawn twice, and each is drawn |
| `RotationForms.StepIsUndone` | src/pgturbohybrid_graph_utils.c:1131-1136 | a step of the generator can be undone, so no two states of 64 bits lead to the same one |
| `RotationForms.RotationIsUnique` | src/pgturbohybrid_graph_utils.c:1304-1316 | these steps lead to one vector only |
| `BitPlanes.WeightsAddUp` | src/pgturbohybrid_graph_utils.c:1618-1633 | the weighted bits of the two-complement code of a value, sign plane negative, add up to the value |
| `BitPlanes.QuantizeIsNearest` | src/pgturbohybrid_graph_utils.c:1702-1738 | a component within the largest magnitude is rounded to the nearest step and never clamped |
| `BitPlanes.PreparePlanes` | src/pgturbohybrid_graph_utils.c:1711-1756 | the OR loops lay out exactly the bits of the quantized query in 128-dimension blocks, padding zero, and sum the query |
| `BitPlanes.ScoreSelects` | src/pgturbohybrid_graph_utils.c:1618-1633 | weighted popcounts of code AND plane sum the query over the set bits of the code |
| `BitPlanes.PaddingIsSilent` | src/pgturbohybrid_graph_utils.c:1686-1700 | dimensions beyond the last contribute nothing, whatever the code bits there |
| `BitPlanes.PopcountsAreExact` | src/pgturbohybrid_graph_utils.c:1618-1643 | twice that sum minus the signed sum is the exact plus or minus one dot product, for every dimension, width 8, 12 or 16 and code |
| `BitPlanes.PrepareQuery` | src/pgturbohybrid_graph_utils.c:1663-1758 | a step is the largest magnitude (or epsilon, if that is larger) divided by 127, 2047 or 32767; every component is within half a step of its quantized value times the step, and one of the largest magnitude gets the largest value; the scale is the center of the codes times the step, and popcounts against every code give the exact dot product with the quantized query |
| `BitPlanes.SupportedBits` | src/pgturbohybrid_graph_utils.c:1653-1661 | the width is the least of 8, 12 and 16 that is at least the request, or 16 |
| `BitPlanes.RoundIsNearest` | src/pgturbohybrid_graph_utils.c:1702-1738 | rounding gives the nearest whole number, away from zero where there are two |
| `BitPlanes.DotIsClose` | src/pgturbohybrid_graph_utils.c:1686-1700 | the dot product of quantized values, in steps, is within half a step for each dimension of that of the components |
| `BitPlanes.ScoreIsClose` | src/pgturbohybrid_quant_score.c:1577-1632 | so is the score, with both times the center |
| `BitPlaneScoring.PlanePopcount` | src/pgturbohybrid_quant_score.c:1595-1598 | the byte loop counts the set bits that block and plane have in common |
| `BitPlaneScoring.ScoreBlock` | src/pgturbohybrid_quant_score.c:1592-1604 | the plane loop adds the weighted popcounts of a block, the sign plane counting negatively |
| `BitPlaneScoring.AsymBit1RawScore` | src/pgturbohybrid_quant_score.c:1577-1632 | full blocks and the zero-padded tail block give twice the weighted popcounts minus the signed sum, scaled, for every code length |
| `BitPlaneScoring.ScoreCode` | src/pgturbohybrid_quant_score.c:1577-1632 | against prepared planes the scorer returns the exact dot product with the quantized query, scaled, for every dimension |
| `MultiVectors.NeverTooLarge` | src/pgturbohybrid_multivector.c:443-500 | within the header limits no size computation exceeds the allocation limit |
| `MultiVectors.ValidateContexts` | src/pgturbohybrid_multivector.c:792-826 | accepts exactly the offsets that start at zero, increase strictly and stay below the count, with non-negative field ids |
| `MultiVectors.CheckMultiVector` | src/pgturbohybrid_multivector.c:560-632 | accepts exactly the valid values |
| `MultiVectorText.EverySpacingReadsBack` | src/pgturbohybrid_multivector.c:3177-3309 | every spacing of the printed tokens is parsed as the printed value, with or without contexts and fields |
| `MultiVectorText.TextRoundTrip` | src/pgturbohybrid_multivector.c:3311-3364 | parsing what was printed gives the value back |
| `MultiVectorText.PrintingIsInjective` | src/pgturbohybrid_multivector.c:3311-3364 | no two valid values print alike |
| `MultiVectorText.ParsedIsStable` | src/pgturbohybrid_multivector.c:3177-3309 | whatever parses is valid and survives printing and parsing again |
| `MultiVectorText.LongReads` | src/pgturbohybrid_multivector.c:3110-3131 | a printed 32-bit integer is read back up to the next character that is not a digit |
| `MultiVectorText.ParseInt32` | src/pgturbohybrid_multivector.c:3110-3131 | reads a signed decimal after white space, or rejects it when absent or out of range |
| `MultiVectorText.ParseFloat4` | src/pgturbohybrid_multivector.c:3133-3154 | reads a finite float after white space, or rejects it |
| `MultiVectorText.ConsumeLiteral` | src/pgturbohybrid_multivector.c:3087-3099 | skips white space and consumes the literal, or rejects |
| `MultiVectorText.ExpectChar` | src/pgturbohybrid_multivector.c:3156-3166 | skips white space and consumes the character, or rejects |
| `MultiVectorText.ParseMultiVector` | src/pgturbohybrid_multivector.c:3177-3309 | the cursor loops compute the specified parse and accept nothing else |
| `MultiVectorText.PrintMultiVector` | src/pgturbohybrid_multivector.c:3311-3364 | the buffer loops print the tokens of the value, which parse back to it |
| `MultiVectorForms.PrintedText` | src/pgturbohybrid_multivector.c:3311-3364 | the printed text piece by piece: name, dimension, count, rows of dim numbers in brackets, contexts and fields where there are any |
| `MultiVectorForms.PrintedInt` | src/pgturbohybrid_multivector.c:3311-3364 | integers are printed in decimal, without superfluous zeros |
| `MultiVectorWire.ReceivedIff` | src/pgturbohybrid_multivector.c:3366-3435 | a message is accepted as a value if and only if the value is valid and the message is the one sent for it, or, for a value without contexts, that message with version 2 |
| `MultiVectorWire.WireRoundTrip` | src/pgturbohybrid_multivector.c:3437-3473 | receiving what was sent gives the value back |
| `MultiVectorWire.Send` | src/pgturbohybrid_multivector.c:3437-3473 | the loops send the specified message |
| `MultiVectorForms.SentBytes` | src/pgturbohybrid_multivector.c:3437-3473 | the sent bytes place by place: big-endian words of version, dimension, count and flags, the number of contexts, their starts and fields, and the values |
| `MultiVectorWire.Receive` | src/pgturbohybrid_multivector.c:3366-3435 | the loops receive as specified, short, long and malformed messages included |

## Left out

- Wand.WandIsExact: stated without a seed threshold and without the fused bound, because a seeded threshold rejects ties and the bound drops documents on purpose; the bound is covered by FusedPruning.SearchPruningIsInvisible.
- TopKSearch.TopK: impact heads (single, OR and seeding) are not modelled; they are approximate by design and stored heads are not filtered by liveness.
- IndexSearch.SearchIndex: terms absent from the lexicon are empty lists, the lexicon is searched by scanning its entries, and idf, average length and norms are given; Statistics.Search computes them.
- Statistics.Search: exact arithmetic; the float4 fields of the metadata and impact heads are not modelled, and k1 and b are taken to be those of the last build.
- Bm25Scoring.WrittenIsValid: the score factor is taken as stored; its rounding to float4 is not modelled.
- Exhaustive.ScoreExhaustively: the SIMD scorers of 16-bit offset chunks are taken to compute what the scalar loop computes.
- FusedRanking.FuseCandidates: stated for RRF and fast weighted fusion; weighted, DBSF and calibrated fusion, exact rescoring of BM25-only results and the diversity pass are not modelled.
- DocumentPaths.FuseDocuments: the same restrictions; and the flag that a result was scored exactly, which no later step reads, is kept with its part and not with the document.
- FusedRanking.FinalizeFused: the choice between heap and full sort is not modelled, since both give the same prefix.
- FusionPaths.NextPowerOfTwo: does not model the overflow of 32-bit doubling.
- FusionPaths.FusionHashSlotCount: does not model the overflow of the 32-bit slot count for more than three billion items.
- FusedPruning.PrepareFastWeightedBound: the switches for required BM25 matches and exact rescoring, under which the code prepares no bound, are not modelled; and the code looks at the fusion method of the query and not at a forced method; the model takes the method as given.
- GenerationArrays.FusionArray.Begin: allocation failure and the memory context that owns the array are not modelled.
- HotCache.Cache.LoadChunk: entries are records in a map from references to records, so freed memory is an absent reference; eligibility and entry size are parameters, statistics counters are left out.
- PostingsCodec.DecodePostings: the legacy format without an encoding tag is not modelled.
- PostingsChain.PostingsStore.WritePostings: an item is its position in one sequence; block and offset numbers, page space and write-ahead logging are not modelled.
- SpillMerge.Collector.AppendBuildDoc: the heap tids and the largest length are not recorded.
- SpillMerge.Collector.WriteLexicon: term ids are positions in the lexicon; block maxima and impact heads are not written, and the four-gigabyte limit of the byte arena is not modelled.
- Accumulator.QueryAccumulator.constructor: dense and hash storage are one table of entries.  DenseAccumulator relates the stamped arrays to it; the hash storage is the dynamic hash table of PostgreSQL, which is not part of this model and of which that table is the specification.
- TopKSearch.ScoreBase: see TopKSearch.TopK for the strategies that are not modelled.
- DeltaStore.Delta.Lookup: the cache of delta entries without a term filter and the page-count heuristic that picks the reader are not modelled; both readers are.
- Compaction.Index.MaybeCompact: the live set is read once and fixed during the compaction, as under the lock the code holds; failure to fit the memory limit leaves the index as it was.
- RotationForms.RotateVector: exact arithmetic; the AVX2 and NEON butterflies are not modelled.
- BitPlaneScoring.AsymBit1RawScore: the AVX2, AVX-512 and NEON variants, and rounding of the scaled result, are not modelled.
- CompactionAnswers.CompactionKeepsAnswers: one direction, because different shares may add up to the same score; CompactionAnswers.PlainScoreKeptIff has both.
- CompactionAnswers.QuantizedAnswersKept: one direction, because different shares may add up to the same score; CompactionAnswers.QuantizedTermKeptIff has both.
- MultiVectorText.ParseFloat4: the float scanner is a parameter.
- MultiVectorText.ParseMultiVector: which error is raised is not modelled, only that the text is rejected; the float scanner is a parameter.
- MultiVectorWire.Receive: which error is raised is not modelled, only that the message is rejected.
- Dense graph build and search, native caches, budget selection, query shapes, cost estimation, executor hooks, statistics, model registry and scripts: heuristics, reporting or PostgreSQL plumbing.
- Late-interaction (MaxSim) scoring, token pooling and quantized inverted lists: they rank documents by sums of vector similarities over quantized codes whose scorers are not part of this model.
