# Verified model of qryeval_plus

A Dafny model of the parts of qryeval_plus whose correctness is not visible from any one function: the
document-at-a-time query engine, the query parser and optimizer, the serving queue, the budget ledger, the agent
loop, and three small numeric and windowing cores. `dafny verify dfyconfig.toml` checks all of it.

**The engine.** `Semantics` says what a query means one document at a time and without iterators: the positions of
an inverted-list node, whether a document matches, its score. `QueryNodes.QryNode` is the program's object graph of
mutable iterators and match caches. Its invariant `Ready` is stated against the semantics: a ghost bound `lo` says
which documents the owner has given up, a list node stands at its first posting from `lo` on, an AND node's
arguments may be ahead of it only where no match of the AND is lost, and a cached match is the first match from `lo`
on. Every method keeps it, so `HasMatch` finds the first remaining match although it moves child iterators,
`GetScore` computes the denoted score, and the ranking loop visits exactly the matching documents. `Near` and
`Window` prove the two position sweeps sound and maximum. For NEAR the optimality proof relabels a family of chains:
at each argument the smallest used position is dropped and the others shift, which uncrosses crossing chains; for
WINDOW the window that ends first is dropped and lends its entries.

**Parser and optimizer.** Both printers (`__str__` and the feedback query text) are one renderer in two styles, and
parsing is proved to undo it. The optimizer's output is a normal form, a fixed point, and the same as for the pruned
tree wherever no WSUM that is kept loses an argument. `OperatorNames` says which operator, distance and field a user's
text stands for, in terms of its characters. `OptimizerMeaning` proves that it preserves matches and scores on
sound trees without empty operators, which by design count as absent; `SumConversion`, `WsumGaps`, `OptimizerGaps` and
`DroppedDuplicates` give the exact conditions for the scores of converted sums, for the weights of a WSUM that loses
arguments, and for duplicates that differ in distance, size or weights only. `Search` composes everything from the query
text to the ranking, `PlainText` for plain words, `StructuredQueries` for queries with operators, and `MixedBags` for
words repeated among empty queries. `LeafScores` and `BooleanScores` say what the scores are and how they order.

**Protocols.** `Serving`, `Budget` and `Agent` are state machines over atomic steps, with theorems over all runs,
and classes whose methods are proved to perform those steps. `CacheKeys` says which questions share an answer,
`AgentRecords` what the rankings of a run hold, and `AgentReports` what its report tells.

Where the code departs from what one would expect, the code was kept, and the exact condition is a lemma:

- `appendPosting` does not check the order of a list's second posting (`InvertedLists.GuardKeepsOrder`); the order of
  evaluated lists comes from the callers.
- Optimizing `#SUM` arguments ignores distances, window sizes and weights: `#SUM(#NEAR/n(s t) #NEAR/k(s t))` loses
  its second argument. The exact conditions are those of `OptimizerGaps.DroppedPhraseCovered` for the matches, and of
  `DroppedDuplicates.DroppedPhraseHalves` and `DroppedWsumHalves` for the scores.
- Deleting a WSUM argument leaves its weight in the list, so the weights of later arguments move
  (`WsumGaps.WeightMoves`), and a single argument that is left loses its weight (`WeightCollapses`); scores are kept
  under exactly the condition of `FlatScoresKeptExactly`.
- Converting `#SUM` to `#WSUM` divides scores by the number of arguments (`SumConversion.ConvertedScoreExact`).
- A one-argument WINDOW may be collapsed only if its size is at least 1 (`OptimizerMeaning.WindowCollapseExact`).
- `__str__` prints no WSUM weights: its text reads back exactly when no WSUM has arguments (`QueryTexts.StrReadsBack`).
- Two budget callers that miss on one key: both pay, one is recorded, and the second gets a response that no later
  hit repeats (`Budget.SecondCallerUnrecorded`); the ledger lists what was paid exactly when no commit finds its key
  cached (`LedgerListsPaymentsExactly`), and later hits repeat every payment exactly when no commit finds a different
  response cached (`PaidIsRepeatedExactly`).
- A request accepted after the shutdown sentinel is never settled (`Serving.SettledAtExit`, `AcceptedAfterSentinel`).
- A search tool whose evidence step fails has already stored its ranking, without a retrieval being counted
  (`Agent.LateFailureOverspends`); the registry exceeds the counters by exactly these calls
  (`RegistryExceedsCounters`). When answering fails, the stop reason no longer tells that research had finished
  (`ReportBalancesExactly`, `FailedAnswerHidesFinish`).
- Holm-adjusted values are cut off at 1, the step-down test is not: from level 1 on they can disagree
  (`Holm.LevelOneDiffers`), for every level exactly as `TestsAgreeExactly` says.
- With a stride or length that is not positive the two windowing loops can differ (`Passages.LoopsAgree`).

## Model

| member | source | states |
|---|---|---|
| Near.GreedySound | src/qryeval_plus/query/QryIopNear.py:41-66 | every tuple the sweep takes is a chain with gaps in 1..n, each strictly after the one before at every argument, so no position is used twice |
| Near.SkipIsSafe | src/qryeval_plus/query/QryIopNear.py:92-98 | the single position a failed probe discards is in no chain that starts at the cursors |
| Near.RebuiltGap | src/qryeval_plus/query/QryIopNear.py:57-64 | in the relabelled family, consecutive positions still have gaps in 1..n |
| Near.Exchange | src/qryeval_plus/query/QryIopNear.py:57-64 | from any disjoint family of chains, crossing ones included, a family one smaller can be rebuilt that starts after the match just taken |
| Near.GreedyIsMaximum | src/qryeval_plus/query/QryIopNear.py:41-66 | no family of pairwise disjoint chains is larger than what the sweep takes |
| Near.NearIsSoundAndMaximum | src/qryeval_plus/query/QryIopNear.py:41-101 | NEAR/n in one document: matches strictly increase, end pairwise disjoint chains one to one, and no disjoint family of chains is larger |
| Near.FindMatch | src/qryeval_plus/query/QryIopNear.py:78-101 | the in-place probe reports the last term's position on a match, and otherwise moves exactly the one cursor the specification names |
| Near.SweepOnce | src/qryeval_plus/query/QryIopNear.py:54-64 | one pass reports at most one match, leaves the rest of the answer unchanged, and uses up positions, so the sweep terminates |
| Near.WithinDoc | src/qryeval_plus/query/QryIopNear.py:41-66 | the cursor loop returns exactly the specified matches, from any ordered position lists |
| Window.SkipIsSafe | src/qryeval_plus/query/QryIopWindow.py:86-97 | discarding the first smallest head loses no window that starts at the cursors |
| Window.ReplacedIsWindow | src/qryeval_plus/query/QryIopWindow.py:80-85 | a window that uses a cursor entry stays a window when it takes over the entry of the window that ends first |
| Window.Exchange | src/qryeval_plus/query/QryIopWindow.py:80-85 | from any disjoint family of windows, a family one smaller can be rebuilt that starts after the match just taken |
| Window.GreedyIsMaximum | src/qryeval_plus/query/QryIopWindow.py:57-97 | no family of windows disjoint in every argument is larger than what the sweep takes |
| Window.WindowIsSoundAndMaximum | src/qryeval_plus/query/QryIopWindow.py:57-102 | WINDOW/n in one document: matches strictly increase, each is the largest position of one of pairwise disjoint windows of spread below n, and no disjoint family is larger |
| Window.MinIndex | src/qryeval_plus/query/QryIopWindow.py:89-95 | the scan finds the first argument with the smallest position |
| Window.WithinDoc | src/qryeval_plus/query/QryIopWindow.py:57-101 | the nested loops return exactly the specified matches; they already come out sorted |
| InvertedLists.InvList.AppendPosting | src/qryeval_plus/core/InvList.py:145-167 | adds the posting exactly when the guard accepts it, and keeps df the number of postings and ctf the sum of term frequencies |
| InvertedLists.GuardKeepsOrder | src/qryeval_plus/core/InvList.py:159-161 | an accepted posting keeps the list ordered if and only if it is not an out-of-order second posting |
| InvertedLists.AppendInOrder | src/qryeval_plus/core/InvList.py:145-167 | a caller that appends in docid order keeps the list well formed and changes the positions of that document only |
| InvertedLists.SameContentsSameList | src/qryeval_plus/core/InvList.py:145-167 | a well-formed list is determined by the positions it gives to each document |
| InvertedLists.DfCountsDocuments | src/qryeval_plus/query/QryIop.py:135-143 | the df of a well-formed list is the number of documents with positions in it |
| Semantics.PositionsOrdered | src/qryeval_plus/query/QryIopSyn.py:48-59 | every inverted-list tree has strictly increasing positions in every document |
| Semantics.MatchesInCollection | src/qryeval_plus/query/Qry.py:211-304 | a document that matches is a document of the collection |
| FirstMatches.FirstInList | src/qryeval_plus/query/QryIop.py:114-121 | a list iterator at its first posting from lo on points at the first match from lo on, or there is none |
| QueryNodes.QryNode.SeekList | src/qryeval_plus/query/QryIop.py:55-82 | moving a list iterator to or past a document cuts away exactly the postings before it |
| QueryNodes.QryNode.Advance | src/qryeval_plus/query/Qry.py:150-173 | advancing a node to or past a document cuts its remaining matches there and keeps the iterator invariant of the whole subtree |
| QueryNodes.QryNode.AlignOthers | src/qryeval_plus/query/Qry.py:239-252 | one round of aligning the other arguments finds a common document, or moves on without passing one, or proves there is none |
| QueryNodes.QryNode.HasMatchAll | src/qryeval_plus/query/Qry.py:211-257 | finds and caches the first document every argument matches from a point on, or proves there is none; the loop terminates |
| QueryNodes.QryNode.HasMatchFirst | src/qryeval_plus/query/Qry.py:260-277 | SCORE: the argument's first remaining match is the node's |
| QueryNodes.QryNode.HasMatchMin | src/qryeval_plus/query/Qry.py:280-304 | OR, SUM, WSUM: the smallest of the arguments' first remaining matches is the node's |
| QueryNodes.QryNode.HasMatchAnd | src/qryeval_plus/query/QrySopAnd.py:23-30 | AND: finds the first remaining match, though its arguments may be ahead of its parent |
| QueryNodes.QryNode.HasMatch | src/qryeval_plus/query/Qry.py:199-304 | for every operator: true exactly when a match remains, the node then points at the first one, and no remaining match is given up |
| QueryNodes.QryNode.GetScore | src/qryeval_plus/query/QrySopScore.py:40-105 | the score computed at the cached match is the denoted score of that document, or an exception where there is none; no iterator invariant is broken by it |
| LeafScores.Bm25Equation | src/qryeval_plus/query/QrySopScore.py:85-104 | the BM25 score of a SCORE node, from positions and lengths alone: it times (tf + K) is the logarithm of (documents + 1) / (documents with positions + 1/2) times tf, and dividing fails exactly when tf + K is 0 |
| LeafScores.NormRange | src/qryeval_plus/query/QrySopScore.py:97-100 | K is never negative, it is k1 where there is no average length or the document has it, and it is 0 exactly when k1 is 0 or, with an average length, b is 1 and the document empty |
| LeafScores.MorePositionsScoreMore | src/qryeval_plus/query/QrySopScore.py:97-104 | of two matching documents of one length the one with more positions scores higher, except exactly where K is 0 |
| LeafScores.LongerScoresLess | src/qryeval_plus/query/QrySopScore.py:97-104 | of two matching documents with equally many positions the shorter one scores higher, if and only if k1 and b are positive and there is an average length |
| LeafScores.RarerScoresMore | src/qryeval_plus/query/QrySopScore.py:107-132 | of two lists of one field with equally many positions in a document the one that is in fewer documents scores higher, and only that one |
| BooleanScores.RankedLeafCounts | src/qryeval_plus/query/QrySopScore.py:61-83 | under ranked Boolean a SCORE node scores the number of positions, under unranked Boolean 1 |
| BooleanScores.AndIsSmallest | src/qryeval_plus/query/QrySopAnd.py:58-73 | the ranked Boolean score of an AND is one of its arguments' scores and none is smaller |
| BooleanScores.OrIsLargest | src/qryeval_plus/query/QrySopOr.py:70-90 | the ranked Boolean score of an OR is one of its matching arguments' scores and none is larger |
| BooleanScores.OperatorsByModel | src/qryeval_plus/query/QrySopSum.py:38-43 | AND and OR have no score under BM25, SUM and WSUM none under the Boolean models; unranked Boolean scores are 1 |
| QueryNodes.QryNode.ScoreAll | src/qryeval_plus/query/QrySopAnd.py:58-73 | the AND loop accumulates the denoted minimum over the arguments |
| QueryNodes.QryNode.ScoreMatching | src/qryeval_plus/query/QrySopWsum.py:50-58 | the OR, SUM and WSUM loops accumulate over exactly the arguments that match the document, though asking them moves their iterators |
| QueryNodes.QryNode.EvaluateNear | src/qryeval_plus/query/QryIopNear.py:20-39 | the list built holds exactly the documents with NEAR positions, in order, with those positions; df and ctf are right |
| QueryNodes.QryNode.AlignToMax | src/qryeval_plus/query/QryIopWindow.py:37-51 | one round of catching up with the largest docid loses no common document |
| QueryNodes.QryNode.WindowRound | src/qryeval_plus/query/QryIopWindow.py:34-108 | one round of the loop completes the list up to the documents it passes, and makes progress |
| QueryNodes.QryNode.EvaluateWindow | src/qryeval_plus/query/QryIopWindow.py:18-108 | the list built holds exactly the documents with WINDOW positions, in order, with those positions |
| QueryNodes.QryNode.EvaluateSyn | src/qryeval_plus/query/QryIopSyn.py:18-59 | the merge builds exactly the union: every document of an argument, with the sorted union of the positions |
| QueryNodes.QryNode.InitializeStats | src/qryeval_plus/query/QrySopScore.py:107-132 | the statistics cached for BM25 are those of the argument's list and field |
| QueryNodes.QryNode.Initialize | src/qryeval_plus/query/QryIop.py:146-164 | after initialization every node of the tree satisfies the iterator invariant from document 0 on |
| QueryNodes.Build | src/qryeval_plus/query/QryParser.py:314-407 | the node objects form a tree without sharing that mirrors the query |
| Ranker.RankNext | src/qryeval_plus/retrieval/Ranker.py:106-110 | one pass stores the first remaining match with its denoted score and leaves exactly the later matches |
| Ranker.GetRanking | src/qryeval_plus/retrieval/Ranker.py:99-112 | the loop terminates and returns the first n entries, by score and external id, of exactly the matching documents with their denoted scores; it raises an exception if some match has no score or no query is left |
| Ranker.AnswerIsUnique | src/qryeval_plus/retrieval/Ranker.py:84-114 | what the ranking has to be determines it: same documents, order and scores |
| Ranker.ScoresDescend | src/qryeval_plus/core/Ranking.py:56-62 | in a ranking scores descend and ids ascend alphabetically among equal scores; every entry is that of a matching document, and every matching document has one unless the ranking is full of entries that score at least as much |
| Ranker.StringLeqExactly | src/qryeval_plus/core/Ranking.py:60-61 | ids are compared character by character: a prefix comes first, or the id that is smaller where they first differ |
| Ranker.SortSorts | src/qryeval_plus/core/Ranking.py:60-61 | sorting keeps the entries as a multiset and orders them by descending score, then id |
| Ranker.SortedIsUnique | src/qryeval_plus/core/Ranking.py:60-61 | there is only one such order |
| Ranker.Ranking.GetRanking | src/qryeval_plus/core/Ranking.py:56-62 | returns at most n stored entries in order by score and id, such that the stored entries left over all come after them |
| Ranker.TopIsUnique | src/qryeval_plus/core/Ranking.py:56-62 | there is only one such list, the first n in sorted order |
| Search.PreparedRoot | src/qryeval_plus/retrieval/Ranker.py:117-124 | whatever the user types, if it parses, the tree is well-typed with the model's default operator at the root |
| Search.OptimizedIsEvaluable | src/qryeval_plus/query/QryParser.py:193-196 | optimizing a well-typed score query leaves one the engine can run |
| Search.SearchBow | src/qryeval_plus/retrieval/Ranker.py:84-124 | from any query text: an exception where parsing fails or nothing is left, otherwise exactly the ranking the optimized query means |
| StructuredQueries.ScanDeeper | src/qryeval_plus/query/QryParser.py:200-221 | a text that closes its own parentheses with its last character does so inside the parentheses of another |
| StructuredQueries.StructuredIsKept | src/qryeval_plus/retrieval/Ranker.py:117-124 | text that starts with # and parses is searched as it is: the search parses it to the default operator over just this query, below SCORE if it is a list |
| StructuredQueries.StructuredSearch | src/qryeval_plus/retrieval/Ranker.py:84-124 | the search answers if and only if it answers what that query alone is optimized to, and raises an exception where nothing is left: the default operator cannot be observed |
| StructuredQueries.StructuredSearchRanks | src/qryeval_plus/retrieval/Ranker.py:84-124 | so it returns, without an exception, the ranking of the query as written without its empty subtrees, where that is sound, supported and in range |
| Search.OptimizationIsInvisible | src/qryeval_plus/query/QryParser.py:225-263 | on sound queries that ranking is the one of the query as it was parsed |
| Search.EmptySubtreesAreIgnored | src/qryeval_plus/query/QryParser.py:239-253 | unless a WSUM that is kept lost an argument, it is the ranking of the parsed query without its empty subtrees |
| Search.BagKeepsRanking | src/qryeval_plus/query/QryParser.py:266-310 | optimizing a bag of words keeps its whole ranking: the same documents in the same order, each score divided by one constant |
| Search.AllScoredInRange | src/qryeval_plus/query/QrySopScore.py:81-105 | every match has a score, for Boolean models, and for BM25 with k1 not negative, b in [0, 1] and no negative length |
| Search.PrunedQueryIsRanked | src/qryeval_plus/query/QryParser.py:239-253 | so under these the search returns the ranking of the sound, parsed query without its empty subtrees, and no exception |
| PlainText.PlainTextIsFlat | src/qryeval_plus/retrieval/Ranker.py:117-124 | text without a leading # whose tokens are words without brackets or a leading # always parses, to the default operator over exactly the scored terms of its words, in order; tokenizing a word again may change it |
| PlainText.PlainSearchKeepsRanking | src/qryeval_plus/retrieval/Ranker.py:84-124 | so a BM25 search for such text returns the ranking of the bag of exactly these terms, each score over one constant; an exception only if no term is left or a score is undefined |
| MixedBags.MixedBagAgrees | src/qryeval_plus/query/QryParser.py:239-253 | empty queries in a bag of words change no match and no score |
| MixedBags.MixedBagKeepsRanking | src/qryeval_plus/query/QryParser.py:225-310 | a bag of words that also holds empty queries, and words more than once, keeps its whole ranking: each score is divided by one constant, that of the bag without the empty queries |
| Optimizer.IsDuplicate | src/qryeval_plus/query/QryParser.py:159-177 | the test decides equality of operators, terms and fields; distances and weights play no part |
| Optimizer.CountDuplicates | src/qryeval_plus/query/QryParser.py:266-310 | the two nested in-place loops compute the specified weights |
| Optimizer.OptimizeQuery | src/qryeval_plus/query/QryParser.py:225-263 | the backward loop that deletes and replaces arguments computes the specified tree |
| OptimizerLaws.DuplicateExactly | src/qryeval_plus/query/QryParser.py:159-177 | two queries are duplicates if and only if they are the same tree once display names, weights and distances are erased |
| OptimizerLaws.ZeroWeightMeansDuplicate | src/qryeval_plus/query/QryParser.py:266-310 | a weight drops to 0 if and only if two arguments are duplicates |
| OptimizerLaws.OptimizeIsNormal | src/qryeval_plus/query/QryParser.py:225-263 | the output has no empty operator, no one-argument operator but SCORE, and no SUM with duplicates, whatever the input |
| OptimizerLaws.NormalIsFixed | src/qryeval_plus/query/QryParser.py:225-263 | a tree in normal form is left alone |
| OptimizerLaws.OptimizeTwice | src/qryeval_plus/query/QryParser.py:225-263 | running the optimizer again changes nothing |
| OptimizerLaws.OptimizeTyped | src/qryeval_plus/query/QryParser.py:225-263 | the output is well-typed, of the same kind and in the same field |
| OptimizerPruning.PruneKeepsTerms | src/qryeval_plus/query/QryParser.py:239-253 | optimizing and pruning leave nothing of exactly the queries without a term |
| OptimizerPruning.OptimizePrunes | src/qryeval_plus/query/QryParser.py:239-253 | without WSUM nodes, optimizing is optimizing the tree without its empty subtrees; nothing is left if and only if the query has no term |
| OptimizerPruning.PruneExactly | src/qryeval_plus/query/Qry.py:348-352 | with WSUM nodes, that is so if and only if no WSUM that is kept loses an argument |
| OptimizerMeaning.NodeAgrees | src/qryeval_plus/query/QryParser.py:239-249 | replacing arguments by agreeing ones keeps a node's positions, matches and scores |
| OptimizerMeaning.SingleAgrees | src/qryeval_plus/query/QryParser.py:258-261 | a one-argument NEAR, WINDOW, SYN, AND, OR, SUM or WSUM agrees with its argument, for WINDOW n at least 1 and positive weight |
| OptimizerMeaning.RankedNonNegative | src/qryeval_plus/query/QrySopOr.py:70-90 | ranked Boolean scores are never negative, which collapsing OR relies on |
| OptimizerMeaning.WindowCollapseExact | src/qryeval_plus/query/QryParser.py:258-261 | collapsing a one-argument WINDOW is right if and only if n is at least 1 or its argument has no positions |
| OptimizerMeaning.OptimizeAgrees | src/qryeval_plus/query/QryParser.py:225-263 | on trees without empty operators or duplicate SUM arguments the optimized query has the same matches and, where there was a score, the same score |
| SumConversion.SameAreTwins | src/qryeval_plus/query/QryParser.py:159-177 | duplicates that also agree on distances and weights have the same positions, matches and scores |
| SumConversion.WeightsSumToCount | src/qryeval_plus/query/QryParser.py:266-310 | the weights of the new WSUM add up to the number of SUM arguments |
| SumConversion.ConvertedMatches | src/qryeval_plus/query/QryParser.py:266-310 | conversion keeps the matching documents |
| SumConversion.ConvertedScore | src/qryeval_plus/query/QryParser.py:266-310 | a converted SUM of k arguments scores exactly 1/k of the original |
| SumConversion.ConvertedScoreExact | src/qryeval_plus/query/QryParser.py:266-310 | so the score is kept if and only if it is zero |
| SumConversion.BagScaled | src/qryeval_plus/query/QryParser.py:225-310 | optimizing a bag of words divides the score of every match by one constant |
| SumConversion.BagKeepsOrder | src/qryeval_plus/query/QryParser.py:225-310 | any two documents keep their order, ties included |
| OptimizerGaps.SecondDropped | src/qryeval_plus/query/QryParser.py:159-177 | the second of two NEARs, or of two WINDOWs, over the same terms is dropped whatever the distances |
| OptimizerGaps.DroppedPhraseCovered | src/qryeval_plus/query/QryParser.py:159-177 | dropping it keeps the matches of every collection if and only if the first distance reaches as far as the second, or for a single term if one of the two matches it; for any number of terms, equal ones included |
| DroppedDuplicates.DroppedHalvesExactly | src/qryeval_plus/query/QryParser.py:266-310 | of any two duplicates in normal form the first is left, and a score is exactly halved if and only if it matches and both were worth the same in that document |
| DroppedDuplicates.DroppedPhraseHalves | src/qryeval_plus/query/QryParser.py:159-177 | for two NEARs or two WINDOWs over the same terms every score of every collection is halved if and only if both reach equally far |
| DroppedDuplicates.DroppedWsumHalves | src/qryeval_plus/query/QryParser.py:159-177 | of two WSUMs over the same different words the second is dropped whatever the weights; every score of every collection is halved if and only if each word has the same share of the total weight in both |
| WsumGaps.SurvivorsAreOptimized | src/qryeval_plus/query/QryParser.py:239-249 | the optimized arguments are those of the surviving indices, in order |
| WsumGaps.WeightsStayExactly | src/qryeval_plus/query/Qry.py:348-352 | different weights keep their index if and only if only trailing arguments vanish |
| WsumGaps.TermlessMatchesNothing | src/qryeval_plus/query/QryParser.py:239-253 | what the optimizer deletes matches no document |
| WsumGaps.SoundTreesAreSoundArguments | src/qryeval_plus/query/QryParser.py:225-263 | the arguments of a well-typed WSUM that hold terms keep their meaning when optimized if they are sound and have no empty operator, which is what the next rows ask of them |
| WsumGaps.GivenScore | src/qryeval_plus/query/QrySopWsum.py:50-58 | a WSUM scores each surviving argument with the weight it was given, over the total of all weights |
| WsumGaps.MovedScore | src/qryeval_plus/query/QryParser.py:239-263 | after optimizing with two or more arguments left, they are scored with the first weights of the list, over the same total |
| WsumGaps.StayingWeightsKeepScore | src/qryeval_plus/query/QryParser.py:239-263 | with two or more left and their weights in place, every score is kept |
| WsumGaps.SingleWeightKeepsScoreExactly | src/qryeval_plus/query/QryParser.py:258-261 | with one left, a score is kept if and only if it is 0 or that weight was the whole total |
| WsumGaps.FlatScoresKeptExactly | src/qryeval_plus/query/QryParser.py:225-263 | for a WSUM of different scored terms and empty queries, every score in every collection is kept if and only if the surviving weights stay in place or the total is not positive, and for a single survivor if it had the whole weight |
| WsumGaps.WeightMoves | src/qryeval_plus/query/QryParser.py:239-263 | #WSUM(0.1 #AND(the) 0.2 apple 0.7 pear): apple is scored with 0.1 |
| WsumGaps.WeightCollapses | src/qryeval_plus/query/QryParser.py:258-261 | #WSUM(0.3 apple 0.7 #AND(the)): apple is scored with 1 |
| Text.IndexOfBalancingParen | src/qryeval_plus/query/QryParser.py:200-221 | the scanning loop finds the specified balancing parenthesis, -1, or an error |
| Text.ScanExactly | src/qryeval_plus/query/QryParser.py:200-221 | the scan gives exactly the first closing parenthesis that leaves none open, and raises an error where one closes too much |
| Text.ScanBeforeOpen | src/qryeval_plus/query/QryParser.py:200-221 | where the scan succeeds, nothing closes before the first open parenthesis |
| Text.PopWord | src/qryeval_plus/query/QryParser.py:431-449 | popping a term takes exactly the first word, whatever white space is around it, and leaves the text from the next word on |
| Text.PopTermExactly | src/qryeval_plus/query/QryParser.py:431-449 | text has such a first word if and only if it is not blank |
| QryParser.TakeArg | src/qryeval_plus/query/QryParser.py:379-399 | one pass of the loop pops the specified weight, subquery or terms, or raises the error |
| QryParser.ParseString | src/qryeval_plus/query/QryParser.py:314-407 | the loop that consumes the text computes the specified tree or error, and terminates at every nesting depth |
| OperatorNames.ParseIntExactly | src/qryeval_plus/query/QryParser.py:85-88 | a distance is accepted exactly if it is one sign at most and decimal digits, single underscores between them and white space around, and means that number |
| OperatorNames.NamedExactly | src/qryeval_plus/query/QryParser.py:64-118 | a name stands for an operator if and only if it is, in any letter case, one of the six plain names, or #near or #window with a slash and a number before the next slash |
| OperatorNames.ParsedOperator | src/qryeval_plus/query/QryParser.py:314-407 | a query text that parses has the operator named in front of its first parenthesis, and one without such a name raises an error |
| OperatorNames.DistanceRead | src/qryeval_plus/query/QryParser.py:90-94 | a text whose name is #near/n or #window/n in any letter case, with n in decimal digits, is parsed to NEAR with distance n or to WINDOW of size n |
| OperatorNames.PlainNameRead | src/qryeval_plus/query/QryParser.py:98-112 | a name without a slash gives the operator of exactly that name in any letter case, or an error |
| OperatorNames.FieldExactly | src/qryeval_plus/query/QryParser.py:136-144 | a token has the field it is written with, a term, a dot and a known field in any letter case, and is a term of the body otherwise |
| OperatorNames.TermsOfToken | src/qryeval_plus/query/QryParser.py:146-155 | its terms are the analyzer's tokens of the term, in order and in that field |
| QryParser.AppendKeepsTypes | src/qryeval_plus/query/Qry.py:87-147 | an accepted argument keeps the tree well-typed: kinds, fields, one argument for SCORE |
| QryParser.AppendExactly | src/qryeval_plus/query/Qry.py:87-147 | an argument is accepted if and only if the tree with it is well-typed |
| QryParser.ParseIsWellTyped | src/qryeval_plus/query/QryParser.py:314-407 | whatever is accepted is well-typed |
| Printing.ScanRender | src/qryeval_plus/query/QryParser.py:200-221 | the balancing parenthesis of printed text is its own last character, whatever follows it |
| RoundTrip.SplitRender | src/qryeval_plus/query/QryParser.py:329-353 | the parser finds the operator name and the argument text of a printed query |
| RoundTrip.PopPrinted | src/qryeval_plus/query/QryParser.py:382-399 | popping from printed arguments gives back exactly the next argument with its weight, and the text of the others |
| RoundTrip.AppendPrinted | src/qryeval_plus/query/Qry.py:87-147 | appending it restores the argument, including an implied SCORE that was not printed |
| RoundTrip.UnweightedRejected | src/qryeval_plus/query/QryParser.py:383-390 | a WSUM printed without weights is a syntax error |
| RoundTrip.ReadBack | src/qryeval_plus/query/QryParser.py:314-407 | parsing undoes printing in both styles for every well-typed query with clean terms, or raises an error exactly when the style loses weights |
| QueryTexts.StrIsRender | src/qryeval_plus/query/Qry.py:365-380 | the text of `__str__` is the display style of the renderer |
| QueryTexts.StrReadsBack | src/qryeval_plus/query/Qry.py:365-380 | parsing it gives the query back if and only if no WSUM has arguments, and is an error otherwise |
| QueryTexts.FeedbackIsRender | src/qryeval_plus/rewrite/RewriteWithPrf.py:168-199 | the feedback query text is the weighted style of its tree |
| QueryTexts.FeedbackReadsBack | src/qryeval_plus/rewrite/RewriteWithPrf.py:168-199 | the ranker reads it back with the same structure, weights and fields |
| QueryTexts.StoredNameIsClean | src/qryeval_plus/query/QryParser.py:116-118 | an accepted operator name is stored in a form that is accepted again, as the same operator |
| QueryTexts.ParseDisplayParse | src/qryeval_plus/query/QryParser.py:314-407 | for any accepted text, displaying and parsing again gives the same tree if and only if no WSUM has arguments |
| Serving.StepKeepsInv | src/qryeval_plus/service/queue.py:31-81 | every step keeps: FIFO order, one request a key in flight, everything answered is cached, the sentinel divides the requests |
| Serving.SameAnswerForever | src/qryeval_plus/service/queue.py:39-81 | over all interleavings and from whatever the cache file holds, once a key was answered every later or coalesced success carries the same text, citations and grounding |
| CacheKeys.WordsOfPadded | src/qryeval_plus/service/cache.py:35 | words with any white space around and between them split into exactly these words |
| CacheKeys.WordsExactly | src/qryeval_plus/service/cache.py:35 | every text is such a padding of just one list of words |
| CacheKeys.SameKeyExactly | src/qryeval_plus/service/cache.py:30-39 | two requests share a key if and only if their policies are equal and their questions are the same words up to white space |
| Serving.NoOtherQuestionServed | src/qryeval_plus/service/queue.py:39-57 | over all runs: a hit is an answer the file held for this key, or one given to a request for the same words and policy, and a join is with such a request |
| Serving.RefusedExactly | src/qryeval_plus/service/queue.py:39-57 | a request is refused if and only if it has no cached answer, no unsettled request has its key and the queue is full; then as many requests are unsettled as the queue holds, or one less after shutdown began |
| Serving.RefinesMemoTable | src/qryeval_plus/service/engine.py:115-136 | queue, inflight map and cache refine a memo table: it only ever gains an unset key, and new answers are read from it |
| Serving.InflightBounded | src/qryeval_plus/service/queue.py:39-81 | the inflight keys are those of the unsettled requests without repetition, at most capacity + 1 |
| Serving.StepExtends | src/qryeval_plus/service/queue.py:59-81 | a settled future keeps its result and a cached answer stays |
| Serving.SettledInOrder | src/qryeval_plus/service/queue.py:59-81 | the settled futures are exactly the oldest ones, and only settling a request adds one, the next in line |
| Serving.SettledAtExit | src/qryeval_plus/service/queue.py:31-37 | when the worker has exited, a request is settled if and only if it was accepted before the sentinel, for ever |
| Serving.AcceptedAfterSentinel | src/qryeval_plus/service/queue.py:31-57 | a run in which a request is accepted after the sentinel was taken, and stays pending whatever follows |
| Serving.WorkerMoves | src/qryeval_plus/service/queue.py:59-81 | while a request is outstanding a running worker has a step, and every worker step brings it closer to done |
| Serving.InferenceQueue.Submit | src/qryeval_plus/service/queue.py:39-57 | answers from the cache, joins the request in flight, refuses when full, or enqueues, and keeps the invariant; whose answer is given or joined was a question of the same words and policy |
| Serving.InferenceQueue.TakeItem | src/qryeval_plus/service/queue.py:61-66 | takes the oldest item; the sentinel stops the worker |
| Serving.InferenceQueue.CheckCache | src/qryeval_plus/service/engine.py:118-122 | the engine's second look at the cache answers a key that was filled meanwhile |
| Serving.InferenceQueue.FinishComputing | src/qryeval_plus/service/engine.py:125-136 | a computed answer is stored and becomes the result; an exception stores nothing |
| Serving.InferenceQueue.SettleFuture | src/qryeval_plus/service/queue.py:73-81 | settles that future and forgets that key, nothing else |
| Serving.InferenceQueue.PutSentinel | src/qryeval_plus/service/queue.py:31-34 | the sentinel goes behind everything accepted so far, as soon as the queue has room |
| Budget.BudgetBound | src/qryeval_plus/llm/cached.py:104-154 | whatever the tables held: with at most k callers between check and commit and T tokens a call, requests grow at most to max + k - 1 and tokens to max - 1 + kT; with one caller the request budget is kept |
| Budget.BoundIsReached | src/qryeval_plus/llm/cached.py:104-154 | for every k and T some run of k callers from an empty file leaves max + k - 1 requests, and in the same run kT tokens more than the smaller of max - 1 and T times the requests below the budget |
| Budget.MostTokens | src/qryeval_plus/llm/cached.py:104-154 | from an empty file no run of k callers records more tokens than that |
| Budget.TokenBoundReachedExactly | src/qryeval_plus/llm/cached.py:104-154 | so max - 1 + kT tokens are reached from an empty file if and only if one request less than the budget can cost max - 1 tokens |
| Budget.StepAccounted | src/qryeval_plus/llm/cached.py:143-154 | each ledger row accounts for one cached response with its tokens and cost, and each cached response has its one row |
| Budget.LedgerKeysAreCachedKeys | src/qryeval_plus/llm/cached.py:143-172 | in every state reachable from accounted tables a namespace's ledger keys are its cached keys, and the request count is their number |
| Budget.LedgerChargesPrices | src/qryeval_plus/llm/cached.py:124-154 | in every reachable state each row charges the tokens of the cached response it accounts for, in total or prompt and completion together, at its namespace's prices for a million tokens |
| Budget.HitRepeats | src/qryeval_plus/llm/cached.py:104-109 | a hit is had exactly for a cached key, repeats the cached content and usage, and costs nothing |
| Budget.OneCallPerKeyPaysOnce | src/qryeval_plus/llm/cached.py:104-154 | if no caller checks a key another one waits for, no commit finds its key cached |
| Budget.LedgerListsPaymentsExactly | src/qryeval_plus/llm/cached.py:124-154 | from any accounted tables: as many payments are missing from the ledger as commits found their key cached; ledger and cache gain exactly what was paid for, row by row, if and only if there is no such commit |
| Budget.PaidIsRepeatedExactly | src/qryeval_plus/llm/cached.py:124-154 | from any tables: as many callers are handed a response that later hits do not repeat as commits found a different response under their key; every response paid for is the cached one if and only if there is no such commit |
| Budget.SecondCallerUnrecorded | src/qryeval_plus/llm/cached.py:143-154 | a run in which two callers pay for one key, one is recorded, and the second response is not the cached one |
| Budget.CachedBudgetProvider.BudgetSnapshot | src/qryeval_plus/llm/cached.py:156-172 | counts the namespace's rows and adds their tokens |
| Budget.CachedBudgetProvider.BeforeCall | src/qryeval_plus/llm/cached.py:104-122 | a hit, a refusal for requests, a refusal for tokens, or admission, in this order |
| Budget.CachedBudgetProvider.AfterCall | src/qryeval_plus/llm/cached.py:124-154 | both inserts ignore a key that is there, and keep the tables accounting for each other |
| Budget.CachedBudgetProvider.Complete | src/qryeval_plus/llm/cached.py:78-154 | with no other call under way: the result is what the cache then holds, one row is added exactly for an admitted success, and the request budget is kept |
| AgentTools.RankingIdInjective | src/qryeval_plus/agentic/tools.py:164-165 | different counts give different ranking ids |
| AgentTools.StoreKeepsRegistered | src/qryeval_plus/agentic/tools.py:164-172 | the registry stays r1 to rk and no stored ranking is overwritten |
| AgentTools.ExecuteKeepsRegistered | src/qryeval_plus/agentic/tools.py:82-111 | a call stores at most one ranking, a success names a stored one, and a failure stores nothing unless passages failed after storing |
| AgentTools.ExecuteStores | src/qryeval_plus/agentic/tools.py:82-111 | a call stores a ranking if and only if the tool is a storing one, its arguments are valid and name stored rankings, and the service got that far; it succeeds in storing if and only if evidence was selected too |
| AgentRecords.RegistryHoldsDeliveries | src/qryeval_plus/agentic/tools.py:82-171 | at every point of every run the k-th ranking holds what the service delivered to the k-th storing call, under that tool's source and that call's query, or the question for fusion; that call is one the planner made and the reply with its number answers it |
| AgentRecords.RunToolRecords | src/qryeval_plus/agentic/tools.py:82-171 | one call stores such a record if and only if it is permitted, its arguments are valid and name stored rankings, and there is a ranking; otherwise the registry stays as it is |
| AgentRecords.RunToolFinishes | src/qryeval_plus/agentic/runtime.py:219-233 | a call finishes research if and only if it is a permitted finish_research that names a stored ranking, and selects just that one |
| AgentRecords.FinishSelectsNamed | src/qryeval_plus/agentic/runtime.py:215-273 | wherever a run reports that it finished, its last reply answers a finish_research call of the planner, and the ranking that call names is selected |
| Agent.RunToolKeepsCore | src/qryeval_plus/agentic/runtime.py:219-262 | one tool call is counted once by name and once as success, error or exhausted budget, and passes no limit |
| AgentReports.CallIsJudged | src/qryeval_plus/agentic/runtime.py:219-262 | a call is refused for its budget if and only if the tool is allowed and its own counter is at the limit, counts as a success under its own counter if and only if it stored evidence or finished, and is an error otherwise |
| Agent.RunToolsKeepsCore | src/qryeval_plus/agentic/runtime.py:215-270 | the calls answered in a turn are a prefix of it, each with one reply in order; all of them unless one finished the research |
| Agent.ForceFinishAnswers | src/qryeval_plus/agentic/runtime.py:317-322 | a forced finish selects the last stored ranking if there is one |
| Agent.StepKeepsInv | src/qryeval_plus/agentic/runtime.py:113-136 | every node of the graph leads to a state its successor expects |
| Agent.RunBounded | src/qryeval_plus/agentic/runtime.py:138-342 | at every point of every run turns, retrievals, reranks and fusions are within limits, and model calls at most maxTurns (retries + 1) + 1 |
| Agent.PlannerSeesValidChat | src/qryeval_plus/agentic/runtime.py:138-204 | whenever the planner is asked it has a turn left, and each earlier tool call has exactly one reply, in order |
| Agent.RunEnds | src/qryeval_plus/agentic/runtime.py:113-136 | every run ends after at most 2 maxTurns + 1 node executions |
| Agent.RunEndsAccounted | src/qryeval_plus/agentic/runtime.py:215-322 | at the end the registry is r1 to rk, nothing is selected if and only if nothing was stored, a selection is registered, and tool_calls balances with usage and with the outcomes |
| AgentReports.AnswerTells | src/qryeval_plus/agentic/runtime.py:138-213 | at the answer node of every run the reason to stop tells the truth: a selection, no turn left, a planner message without calls and with or without a ranking stored, or a last planner attempt that failed |
| AgentReports.EndTells | src/qryeval_plus/agentic/runtime.py:275-305 | a finished run reports the generated text exactly when a ranking is selected and the provider answers, an error of the answer exactly when it does not, and otherwise that reason |
| Agent.EarlyFailuresBoundRegistry | src/qryeval_plus/agentic/tools.py:164-179 | services that fail only before storing leave no ranking uncounted |
| Agent.RegistryExceedsCounters | src/qryeval_plus/agentic/runtime.py:219-262 | in every run the registry holds as many rankings as the counters say plus the executed calls that failed in evidence selection; the two agree if and only if there is no such call |
| Agent.LimitsBoundRegistry | src/qryeval_plus/agentic/runtime.py:324-333 | the stored rankings exceed the sum of the limits by no more than those calls |
| Agent.LateFailureOverspends | src/qryeval_plus/agentic/tools.py:164-179 | a run that stores two rankings under a retrieval limit of one and counts neither |
| Agent.ReportBalancesExactly | src/qryeval_plus/agentic/runtime.py:275-305 | the final counters balance with the final stop reason if and only if it is not so that research finished and answering failed |
| Agent.FailedAnswerHidesFinish | src/qryeval_plus/agentic/runtime.py:275-305 | a run that finished its research and whose answer fails, with a call that no reported number accounts for |
| Agent.AgentRun.CompletePlanner | src/qryeval_plus/agentic/runtime.py:195-213 | the retry loop counts every attempt and stops at the first that is no provider error, or at the last |
| AgentReports.AskedAgain | src/qryeval_plus/agentic/runtime.py:195-213 | every planner reply before the last is a provider error, and the last one is only after all retries |
| Agent.AgentRun.UseTools | src/qryeval_plus/agentic/runtime.py:215-273 | the loop with its early break computes the specified node |
| Agent.AgentRun.Invoke | src/qryeval_plus/agentic/runtime.py:113-136 | driving the nodes reaches the specified end state, for any model and services |
| Holm.RunningIsAdjusted | src/qryeval_plus/statistics.py:48-56 | the running maximum is the largest corrected value min(1, hypotheses at least as large times p) up to each p-value, ties included |
| Holm.AdjustedIgnoresOrder | src/qryeval_plus/statistics.py:48-56 | adjusted values do not depend on the order of the inputs, tied ones included |
| Holm.AdjustedLaws | src/qryeval_plus/statistics.py:48-56 | they are determined, ordered like the p-values, at most 1, and at least the p-value |
| Holm.AdjustedIsStepDown | src/qryeval_plus/statistics.py:48-56 | for every level below 1 an adjusted value is within it if and only if the step-down test rejects the hypothesis |
| Holm.TestsAgreeExactly | src/qryeval_plus/statistics.py:48-56 | for every level: adjusted values and the step-down test agree on all hypotheses if and only if the level is in [0, 1), or at least 1 and no p-value times the hypotheses left exceeds it, or negative and the first of these products exceeds it |
| Holm.LevelOneDiffers | src/qryeval_plus/statistics.py:54 | two p-values that at level 1 the test keeps although their adjusted values are within the level |
| Holm.HolmAdjust | src/qryeval_plus/statistics.py:48-56 | the loop gives exactly the named hypotheses their adjusted values |
| Feedback.StoredCountsFit | src/qryeval_plus/rewrite/RewriteWithPrf.py:78-80 | term counts of a document rebuilt from its text add up to at most its length, filtered or not |
| Feedback.DocWeightsSumToOne | src/qryeval_plus/rewrite/RewriteWithPrf.py:236-242 | the document weights are a probability distribution whatever the scores |
| Feedback.WeightsAreProportional | src/qryeval_plus/rewrite/RewriteWithPrf.py:236-242 | the document weights are in the ratio of the positive scores, 0 for the others, and all equal if there is no positive score |
| Feedback.SwapSums | src/qryeval_plus/rewrite/RewriteWithPrf.py:244-257 | adding up over terms first and over documents first gives the same |
| Feedback.DocumentAddsExactly | src/qryeval_plus/rewrite/RewriteWithPrf.py:268-281 | what one more document adds to a term's score, as an equation without division between its count, its length, mu, its weight and the collection's counts |
| Feedback.DocumentMassExact | src/qryeval_plus/rewrite/RewriteWithPrf.py:274-280 | what one document gives to the scored terms, exactly, from its counts and the collection's |
| Feedback.ScoresAreSubProbability | src/qryeval_plus/rewrite/RewriteWithPrf.py:236-281 | over any distinct terms the RM3 scores add up to at most 1 |
| Feedback.MassIsWeights | src/qryeval_plus/rewrite/RewriteWithPrf.py:268-281 | if the terms make up every document and the collection, no mass is lost |
| Feedback.CalculateRm3Weight | src/qryeval_plus/rewrite/RewriteWithPrf.py:268-281 | the loop over the documents computes the specified mixture |
| Feedback.ScoreTerms | src/qryeval_plus/rewrite/RewriteWithPrf.py:236-257 | exactly the terms with a positive score are kept, with that score, in whatever order the vocabulary is visited |
| Passages.BuildPassages | src/qryeval_plus/rag/PassageBuilder.py:36-47 | for any length, stride and count the loop terminates and cuts exactly the existing windows: none of negative length, and at most one if the stride is not positive |
| Passages.BodyWindows | src/qryeval_plus/rerank/RerankWithBERT.py:174-188 | for any length, stride and count the loop terminates and cuts exactly the existing windows |
| Passages.WindowsAreDetermined | src/qryeval_plus/rag/PassageBuilder.py:36-47 | the windows are determined by body, length, stride and count |
| Passages.LoopsAgree | src/qryeval_plus/rerank/RerankWithBERT.py:174-188 | the two loops cut the same windows if and only if there is nothing to cut, or the length is not negative and the stride is positive or one window is all there is |
| Passages.WindowsAdvance | src/qryeval_plus/rag/PassageBuilder.py:40-47 | each window starts and ends after its predecessor |
| Passages.WindowsCover | src/qryeval_plus/rag/PassageBuilder.py:36-47 | every token is covered if and only if strides leave no gap and the count is large enough |

## Left out

- Numbers: floating point is modelled by reals, `math.log` and field statistics by functions of the index; a division by zero in BM25 is an exception.
- Lucene: term lists come from a map of well-formed postings; the tokenizer and `float()` are functions, and number printing is a function that `float()` undoes where the round trip needs it.
- Text: white space, digits and letter case are ASCII only.
- Query objects: `QryNode` is one class for all operators; the type tests of the source become tests of the operator. A list node's inverted list is made with the node and cleared by evaluation instead of replaced.
- Building queries: the parser and optimizer return values instead of changing argument lists in place, so aliasing between the trees before and after optimization is not captured; `QueryNodes.Build` makes the objects for the optimized tree.
- Unused iterators: the location iterators and `docIteratorFinish`, which no operator calls.
- Statistics of empty lists: `getDefaultScore`, which always raises an exception.
- Search: batches, printing of queries, prior rankings and dense retrieval.
- Serving: cancellation of futures or of the worker, a second call of `close`, several processes on one cache file, and the latency, usage and request id fields of a response. The executor's cache write between a submission's cache test and its enqueueing is covered by ordering it after the submission, which reads nothing else it changes.
- Serving keys: SHA-256 is taken to be injective; corpus version and configuration hash are fixed for a run.
- Budget: SQLite and SHA-256; the payload stands for everything that is digested besides the namespace. A corrupt cache row and a response with non-integer usage are not modelled.
- Agent: the texts of messages and results, trajectories, errors, durations, usage and checkpoints; exceptions of other types than the source catches end a run and are not modelled; LangGraph's recursion limit is not modelled. Reciprocal-rank fusion, like retrieval, is the outcome of a service.
- Feedback: Okapi scores, which documents and terms are fit for expansion, and the selection of the top terms.
- Passages: titles, and joining tokens into text.
- ScoresAreSubProbability: takes as hypotheses that term counts and collection frequencies add up to at most the lengths the index reports; for documents rebuilt from stored text this is proved.
- FeedbackReadsBack: is for terms that tokenize to themselves and for numbers that print and read back as themselves; other terms mean something else to the parser.
- Other parts: configuration, evaluation, experiments, HTTP service, command line, reports, learning to rank, bootstrap and randomization tests, percentiles, error classes, the one-decision rewrite agent.
