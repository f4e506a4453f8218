# SwarmBrain evidence scripts: a verified model

SwarmBrain publishes benchmark claims with evidence files, and a set of scripts
writes, replays and refuses that evidence. This project models the hard logic
of those scripts in Dafny and proves what they are meant to guarantee, for
every input, every run and every crash.

* `Packing.dfy`, `PackingValidator.dfy`: the token-budget packer, and the
  validator that replays its trace against five shared dictionaries.
* `Batching.dfy`, `Embedding.dfy`: the padding-aware batcher, and the embedder
  that sorts, batches, retries and scatters back.
* `Lafs.dfy`: the Pareto frontier and the latency-adjusted frontier score.
* `OperationTrace.dfy`: the traces of recall and read-expand operations and the
  invocation ids that one tier shares.
* `Workflow.dfy`, `WorkflowRun.dfy`: the gated experiment whose state is its
  files. The first holds the disk, its invariant and every single write; the
  second the phases, as processes that may die after any number of writes.
* `ResumeTrace.dfy`, `Splitting.dfy`: the append-only trace that is resumed
  after a crash, and its manifest.
* `SignTest.dfy`, `RankingMetrics.dfy`, `Quotients.dfy`: the exact sign test,
  average precision, nDCG and the context metrics.
* `JsonPointer.dfy`: RFC 6901 pointers as the readiness evaluator reads them.
* `TokenizerPipe.dfy`: the request/response pipe to the tokenizer, with
  timeouts.
* `Wrappers.dfy`: `Option` and `Result`.

What comes from outside is a parameter and stays arbitrary: SHA-256, prompt
rendering, JSON reading and writing, the embedding model, the provider's
answers, the tokenizer worker, the clock. Where a theorem needs something of
such a parameter (an injective digest, a row-wise model, a worker that names
the request it answers, canonical JSON that reads back), the theorem says so.

Three properties hold only under a condition, and the condition is exact:

* The workflow's design asks for a run that can be resumed from any crash. Three
  things block it for good. A reserved call whose response is missing,
  cannot be read, or is settled and then not accepted is never issued again. An
  accepted reply whose text has no UTF-8 form (a lone surrogate, escaped in
  JSON) gets its receipt, and then the judge request or the QA artifact that
  quotes it cannot be written. And the report is refused when two replies carry
  the same provider request id. With a provider that answers every remaining
  call, `WorkflowRun.Workspace.RunAll` ends with the report if and only if none
  of these is the case; `WorkflowRun.WritableIsEncodable` puts the second in
  terms of single replies. `WorkflowRun.FirstCallFails`,
  `WorkflowRun.FirstCallLost`, `WorkflowRun.UnwritableReplyBlocks` and
  `WorkflowRun.RepeatedIdBlocks` are runs from the empty disk that end where no
  run recovers.
* A trace checkpoint is resumed by a later start if and only if its rows carry
  that start's identity and replay. The live loop writes a row without asking
  for either: `ResumeTrace.WrittenButNotTakenUp`.
* The evaluator's pointers round-trip on every path, but it resolves more than
  RFC 6901 allows. `JsonPointer.StrictlyResolved` says exactly how much more;
  `JsonPointer.LooserIndexes` and `JsonPointer.LooserEscapes` are witnesses. The
  model follows the code.

## Model

| member | source | states |
|---|---|---|
| `Packing.AcceptsIffPackerRun` | scripts/build_longmemeval_retrieval_report.py:362-603 | acceptance, for any budget list, is the existence of tokenizer replies (positive counts, well-formed and never repeated provider ids) with which one memoised greedy packer writes exactly these rows and this accounting |
| `Packing.RowCheckedIffPacked` | scripts/build_longmemeval_retrieval_report.py:437-568 | one budget row replays, from any registry, to a given later registry if and only if the memoised packer of `exact_context_packing_evidence` writes that row and ends in that registry |
| `Packing.AcceptedIsAsked` | scripts/build_longmemeval_retrieval_report.py:219-276 | an observation accepted for a prompt state is what the memoised packer observes there when fed the replies of any later registry |
| `Packing.AskedIsAccepted` | scripts/run_retrieval_eval.py:360-369 | whatever the packer's memo table or an honest tokenizer answers, the validator accepts, and both reach the same registry |
| `Packing.RecordKeepsLog` | scripts/build_longmemeval_retrieval_report.py:232-276 | an accepted observation leaves requests numbered 1..n in order, with distinct prompt states, distinct provider ids and each state's own digest, and only appends |
| `Packing.KeptIdsNest` | scripts/build_longmemeval_retrieval_report.py:443-568 | in an accepted payload the ids kept at depth 5 are a prefix of those kept at depth 10 under the same budget, and a non-empty bounded selection ends with a count within its budget |
| `Packing.RowKept` | scripts/build_longmemeval_retrieval_report.py:478-562 | without a budget an accepted row keeps the first k ids of the ranking; with one it keeps the greedy selection from them by the one count that the final registry holds for each state, although the rows were validated separately, and a non-empty selection fits |
| `Packing.RankingIsFollowed` | scripts/build_longmemeval_retrieval_report.py:441-568 | in an accepted payload the material is the top ten of the ranking, and every row is about exactly the first k ids: decision i is about the i-th of them, proposes it after those accepted so far, and takes it exactly if its count fits; what is kept is what was taken |
| `Packing.RowIsGreedy` | scripts/build_longmemeval_retrieval_report.py:478-562 | in an accepted row the kept ids are the greedy selection by the counts of any later registry, which holds the row's final observation for exactly these ids |
| `Packing.FinalObservationIsCurrent` | scripts/build_longmemeval_retrieval_report.py:550-568 | after the decisions the registry takes exactly one observation for the selection, the walk's current one, without changing; so the `final_observation != current` test never decides |
| `Packing.TaskListed` | scripts/build_longmemeval_retrieval_report.py:437-443 | every case, depth and budget is visited by the nested loops, with the first k ids of that case's ranking as candidates |
| `Packing.RegistryStates` | scripts/build_longmemeval_retrieval_report.py:437-568 | the registry ends up with exactly the prompt states that some row mentions |
| `Packing.AccountingCountsDistinctStates` | scripts/build_longmemeval_retrieval_report.py:582-603 | the accepted accounting is provider-observed and verified, its requests, responses and provider ids are the number of distinct prompt states, and its text sizes are summed once over each of them |
| `PackingValidator.Registry.Observe` | scripts/build_longmemeval_retrieval_report.py:219-276 | the five dictionaries stay five views of one log; an observation is accepted exactly when the log may take it, and the log then holds it |
| `PackingValidator.Registry.Replay` | scripts/build_longmemeval_retrieval_report.py:443-568 | one budget row, bounded or not, in place on the registry: accepted exactly when it replays, and then the registry is the replayed one |
| `PackingValidator.Registry.TextTotals` | scripts/build_longmemeval_retrieval_report.py:590-597 | the summing loop gives the totals over the requests 1..n |
| `PackingValidator.Registry.CheckAccounting` | scripts/build_longmemeval_retrieval_report.py:570-603 | accepted exactly when the accounting block is the registry's; the request-id contiguity test needs no case of its own |
| `PackingValidator.CheckShape` | scripts/build_longmemeval_retrieval_report.py:286-347 | the material loop and the key tests accept exactly the cases whose material is the top ten of the ranking, non-empty and without repetition, and whose evidence has the two depths and all budgets |
| `PackingValidator.Validate` | scripts/build_longmemeval_retrieval_report.py:362-603 | the nested loops over cases, depths and budgets accept exactly the payloads that `Packing.Accepts` describes |
| `Batching.PaddingAwareBatches` | scripts/run_longmemeval_e1_external.py:670-708 | fails exactly for a non-positive size, an empty item or an unsorted list, never for a singleton; otherwise the batches concatenate to the input, are all admissible, and no contiguous split into admissible batches has fewer |
| `Batching.AdmissibleIsHereditary` | scripts/run_longmemeval_e1_external.py:684-698 | on a sorted list every part of an admissible batch is admissible |
| `Batching.AdmissibleIsPairwise` | scripts/run_longmemeval_e1_external.py:684-698 | the test on the ends of a sorted batch is a statement about all its items: at most `size` of them and, if several, none longer than twice another and none so long that the padded batch leaves the cell budget |
| `Batching.GreedySplits` | scripts/run_longmemeval_e1_external.py:677-708 | from any admissible open batch, the greedy cut covers the open batch and the rest, in order, in admissible batches |
| `Batching.GreedyIsShortest` | scripts/run_longmemeval_e1_external.py:677-708 | from any admissible open batch, no admissible cut is shorter than the greedy one |
| `Embedding.Embed` | scripts/run_longmemeval_e1_external.py:757-858 | in input order: token counts, truncation flags and, for a row-wise model, the vector that the first 8192 tokens of each text get by themselves; the plan is a permutation of all positions and the totals are those of a shortest split plus the singleton retries; it fails exactly for no texts, for a size or an empty encoding that cannot be batched, and otherwise when some row of some batch of the shortest split is not finite even alone |
| `Embedding.BatchingIsInvisible` | scripts/run_longmemeval_e1_external.py:757-858 | two results of a row-wise model over the same texts agree in vectors, counts and flags, whatever the batch sizes were |
| `Embedding.EmbedBounds` | scripts/run_longmemeval_e1_external.py:780-836 | retries included, at most 3 times the input tokens and 5 times the squared lengths are processed, every shared batch fits the cell budget, and there are at most two model batches per text |
| `Embedding.PaddingIsBounded` | scripts/run_longmemeval_e1_external.py:692-698 | before retries, at most twice the tokens and four times the squared lengths, for every admissible split of a sorted list |
| `Embedding.BatchSizes` | scripts/run_longmemeval_e1_external.py:788-790 | a sorted batch is padded to its last item: its tokens and cells are the size times that length and its square, and never less than the items' own tokens |
| `Embedding.SortedInputsAreInputs` | scripts/run_longmemeval_e1_external.py:764-775 | sorting by length and position keeps every input exactly once |
| `Embedding.SortedInputsInOrder` | scripts/run_longmemeval_e1_external.py:775-775 | the batches are cut from the inputs in the order of (length, position) |
| `Embedding.PlanCovers` | scripts/run_longmemeval_e1_external.py:776-785 | the flattened batch plan is the sequence of positions of the flattened batches |
| `Embedding.RunBatch` | scripts/run_longmemeval_e1_external.py:796-836 | one batch: each row is the batch's own or its singleton retry; it fails only at a position whose singleton is not finite |
| `Embedding.RetriesAre` | scripts/run_longmemeval_e1_external.py:796-836 | the reported retries are exactly the positions whose row was not finite in its batch, and there is one extra model run for each |
| `Embedding.ScatterBatch` | scripts/run_longmemeval_e1_external.py:838-846 | writing one batch into the per-position arrays keeps all earlier positions and puts every row at its own position |
| `Embedding.RunBatches` | scripts/run_longmemeval_e1_external.py:780-846 | all batches in order: everything is scattered to its position and the running totals are exact |
| `Lafs.ParetoFrontier` | scripts/build_longmemeval_v2_report.py:515-528 | fails exactly on a non-positive latency; otherwise strictly increasing in latency and accuracy, made of input points, and matching every input by one no slower and no less accurate |
| `Lafs.FrontierIsUndominated` | scripts/build_longmemeval_v2_report.py:515-528 | no input dominates a frontier point |
| `Lafs.FrontierBest` | scripts/build_longmemeval_v2_report.py:515-546 | at every latency the frontier's best accuracy is the best over all inputs |
| `Lafs.AreaIsIntegral` | scripts/build_longmemeval_v2_report.py:531-546 | any two covering breakpoint lists with the same ends give the same area: refining changes nothing |
| `Lafs.LafsScore` | scripts/build_longmemeval_v2_report.py:531-546 | the loop over the frontier's breakpoints computes the integral, over all points, of the best accuracy so far, for any strictly increasing weight |
| `Lafs.ScoreIsArea` | scripts/build_longmemeval_v2_report.py:531-546 | the score times the weight of the whole span is the area over any covering breakpoints from 1 to 200 |
| `Lafs.ScoreOfStep` | scripts/build_longmemeval_v2_report.py:531-546 | a best accuracy that is a before latency s and b from there on scores their mean by the weights of the two spans |
| `Lafs.ScoreOfConstant` | scripts/build_longmemeval_v2_report.py:531-546 | a best accuracy that never changes is the score |
| `Lafs.ScoreByBest` | scripts/build_longmemeval_v2_report.py:531-546 | points with the same best-so-far function have the same score |
| `Lafs.PermutedScore` | scripts/build_longmemeval_v2_report.py:515-546 | permuting the points does not change the score |
| `Lafs.DominatedPointIsFree` | scripts/build_longmemeval_v2_report.py:515-546 | adding a dominated point does not change the score |
| `Lafs.GainIsBeating` | scripts/build_longmemeval_v2_report.py:559-576 | for accuracies that are not negative the gain is never negative, and positive if and only if some submission point with latency below 200 beats the reference's best at max(1, its latency) |
| `Lafs.ScoreBounds` | scripts/build_longmemeval_v2_report.py:531-546 | the score lies between 0 and any bound on the accuracies |
| `Lafs.Summarize` | scripts/build_longmemeval_v2_report.py:559-576 | the summary of a tier fails exactly on a non-positive submitted latency, carries the frontier of all points, and its gain has the sign `GainIsBeating` gives |
| `Lafs.ReferenceScores` | scripts/build_longmemeval_v2_report.py:193-213 | the score of the published points of both tiers, written out: three of the four points make it, and Codex adds nothing |
| `OperationTrace.Tier.Validate` | scripts/build_longmemeval_v2_report.py:1049-1265 | accepts exactly the traces that prove their query with ids not seen before; the shared set then grows by exactly one id per operation and is unchanged on failure; under an injective digest acceptance is: the trace proves its query and the query was not accepted before |
| `OperationTrace.Tier.ValidateAll` | scripts/build_longmemeval_v2_report.py:1465-1513 | under an injective digest a tier of pairwise different queries passes exactly if every trace proves its query: the reuse test never fires |
| `OperationTrace.Tier.Scan` | scripts/build_longmemeval_v2_report.py:1070-1226 | the pass over the operations accepts exactly: fields in range, every expansion's seeds inside one earlier successful search, a successful expansion, ids distinct and unseen |
| `OperationTrace.Tier.CheckFields` | scripts/build_longmemeval_v2_report.py:1070-1221 | the field tests of one operation, in the source's order, accept exactly `FieldsOk` |
| `OperationTrace.ReuseIsRepetition` | scripts/build_longmemeval_v2_report.py:848-862 | for any history, reuse of an invocation id is repetition of the query, in both directions |
| `OperationTrace.OpensWithRecall` | scripts/build_longmemeval_v2_report.py:1175-1226 | a trace that proves anything opens with a recall, and a successful search stands before a successful expansion linked to it |
| `OperationTrace.ExpandsNeedSearches` | scripts/build_longmemeval_v2_report.py:1227-1231 | the separate test for a successful search can never fail alone |
| `OperationTrace.TokensOfSuccesses` | scripts/build_longmemeval_v2_report.py:1208-1232 | the delivered total is the total of the successful operations, each within the limit |
| `OperationTrace.TotalsAdd` | scripts/build_longmemeval_v2_report.py:1225-1240 | delivered tokens and latencies of a trace are the sums over its parts, down to single operations |
| `OperationTrace.TokensCoverAll` | scripts/build_longmemeval_v2_report.py:1225-1240 | every operation's tokens and latency are within the totals, and nothing is delivered exactly if no operation delivers |
| `WorkflowRun.Workspace.RunAll` | scripts/run_longmemeval_e6c_v2_merged_lane_external.py:872-887 | an uninterrupted run with an answering provider ends with the report if and only if no question is stuck (a reserved call without a response that passes both tests, or a next request or QA artifact that cannot be written from the replies that are there) and, after G1, the replies it is heading for, those on disk and the provider's, repeat no provider request id, nor one of the extraction, and leave every request and QA artifact writable; with a contacted provider a failed run leaves a stuck question or a repeated id; when it ends, the report is the one of the replies it was heading for, with their diagnostic; a stuck disk stays stuck; nothing is ever overwritten |
| `WorkflowRun.Workspace.Schedule` | scripts/run_longmemeval_e6c_v2_merged_lane_external.py:828-887 | over any sequence of phases and full runs, each dying after any number of writes: the invariant holds, every artifact only ever appears, calls only accumulate, and without G1 there are none |
| `WorkflowRun.Workspace.RunPhase` | scripts/run_longmemeval_e6c_v2_merged_lane_external.py:828-869 | any single phase: what it leaves on disk when it is done and what makes it refuse (selection and packing never do; pre-QA exactly for missing evidence without QA state; the report exactly when it is not due), that only the QA phase calls, that a kill needs the process's last write, and that nothing is overwritten |
| `WorkflowRun.ReportIsTerminal` | scripts/run_longmemeval_e6c_v2_merged_lane_external.py:672-794 | with a report, G0 passed, and either G1 failed and no call was ever made, or G1 passed, every route of every question was reserved, answered, settled and accepted, and no two replies share a provider request id; the verdict, the sealed gates and the diagnostic are spelled out from the receipts, and every artifact below them is there and is its replay |
| `WorkflowRun.FirstCallFails` | scripts/run_longmemeval_e6b_head20_external.py:4299-4323 | from the empty disk, a run whose first call goes unanswered, or whose reply cannot be read, or is settled and then not accepted, ends on a disk that no later run recovers |
| `WorkflowRun.FirstCallLost` | scripts/run_longmemeval_e6b_head20_external.py:4452-4546 | from the empty disk, a process that dies right after the reservation of its first call ends on such a disk, whatever the answer would have been |
| `WorkflowRun.RepeatedIdBlocks` | scripts/run_longmemeval_e6c_v2_merged_lane_external.py:236-244 | from the empty disk, a provider that answers every call but repeats a request id: neither this run nor any later sequence of runs, with any providers, writes a report, although all answers are sealed when they can be quoted |
| `WorkflowRun.UnwritableReplyBlocks` | scripts/run_longmemeval_e6b_head20_external.py:4062-4132 | from the empty disk, a provider whose accepted replies make some judge request or some QA artifact impossible to write: the run ends on a stuck disk, and no later sequence of runs, with any providers, writes a report |
| `WorkflowRun.UnwritableDooms` | scripts/run_longmemeval_e6b_head20_external.py:4276-4290 | what cannot be written from the replies on disk can never be: whatever the provider, the receipts that a run is heading for are not writable |
| `WorkflowRun.CompleteIsWritable` | scripts/run_longmemeval_e6b_head20_external.py:4641-4656 | with all QA artifacts on disk every request and every artifact could be written from the receipts |
| `WorkflowRun.WritableIsEncodable` | scripts/run_longmemeval_e1_external.py:251-281 | when a judge request quotes the reader's text and a QA artifact all texts, and both are encoded as UTF-8, writable means: every reply that the run is heading for has a UTF-8 form; a lone surrogate has none |
| `WorkflowRun.LostCallIsStuck` | scripts/run_longmemeval_e6b_head20_external.py:4299-4302 | a reservation without a response, on any gated disk whose next request can be written, keeps the invariant and makes the disk stuck |
| `WorkflowRun.AnswerIsDestined` | scripts/run_longmemeval_e6b_head20_external.py:4606-4640 | the provider's answer to the next call of a question does not change which receipts a run with this provider is heading for |
| `WorkflowRun.CompleteIsDestined` | scripts/run_longmemeval_e6b_head20_external.py:4641-4656 | with all QA artifacts on disk the receipts are exactly those that every run, with any provider, is heading for |
| `WorkflowRun.RowsAreReplies` | scripts/run_longmemeval_e6b_head20_external.py:4606-4640 | the receipts that a run is heading for are, route by route, the response on disk or else the provider's answer after the replies before it, and end early only where there is neither |
| `WorkflowRun.AnsweredRoutesDone` | scripts/run_longmemeval_e6b_head20_external.py:4238-4341 | a question with its QA artifact has every route reserved, answered, settled and accepted |
| `WorkflowRun.Workspace.SelectPhase` | scripts/run_longmemeval_e6c_merged_lane_external.py:678-689 | write or verify every selection: never refuses, and afterwards all are there |
| `WorkflowRun.ReportIsDue` | scripts/run_longmemeval_e6c_v2_merged_lane_external.py:723-794 | a finished disk admits one report only, so a report found on disk is the one being written |
| `WorkflowRun.Workspace.RepairPairs` | scripts/run_longmemeval_e6c_v2_merged_lane_external.py:465-492 | a lone pack or prompt half is completed by its replay; afterwards every pair is whole or absent, and nothing of the QA side moved |
| `WorkflowRun.Workspace.PackPhase` | scripts/run_longmemeval_e6c_v2_merged_lane_external.py:465-492 | afterwards every question has pack and prompt; the phase fails only by being killed |
| `WorkflowRun.Workspace.EnsurePair` | scripts/run_longmemeval_e6c_merged_lane_external.py:813-892 | the inherited step refuses exactly a lone half, and otherwise leaves the pair whole |
| `WorkflowRun.Workspace.BuildSeal` | scripts/run_longmemeval_e6c_v2_merged_lane_external.py:499-547 | refuses exactly with QA state or without complete evidence, writes the gates once, and never replaces the gates that are there |
| `WorkflowRun.Workspace.LoadSeal` | scripts/run_longmemeval_e6c_v2_merged_lane_external.py:550-583 | gives the sealed gates exactly when they are on disk |
| `WorkflowRun.Workspace.ReconcileRoute` | scripts/run_longmemeval_e6b_head20_external.py:4254-4333 | only the next route of a question can change or stop the reconciliation; it stops exactly if the question is stuck: its request cannot be written, and then nothing changes, or its reserved call has no usable response, which may gain its settlement; what was stuck stays stuck |
| `WorkflowRun.Workspace.SettleAndAppend` | scripts/run_longmemeval_e6b_head20_external.py:4310-4330 | the settlement is durable before the response is tested the second time; only an accepted reply becomes a receipt |
| `WorkflowRun.Workspace.Reconcile` | scripts/run_longmemeval_e6b_head20_external.py:4238-4341 | one question's journal ends clean with its next request writable, or the reconciliation stops: on a reserved call that had no usable response, or on a request that cannot be written from the replies it ends with; what was stuck stays stuck |
| `WorkflowRun.Workspace.Issue` | scripts/run_longmemeval_e6b_head20_external.py:4452-4546 | the reservation is durable before the provider is contacted, the call is recorded once, with sealed passing gates; every failure after the reservation leaves the question stuck, and silence or a death right after it leaves the reservation alone |
| `WorkflowRun.Workspace.KeepAnswer` | scripts/run_longmemeval_e6b_head20_external.py:4503-4546 | the raw response is kept, settled if readable, and then accepted or not; a failure leaves the question stuck |
| `WorkflowRun.Workspace.CompleteCall` | scripts/run_longmemeval_e6b_head20_external.py:4452-4546 | a route with any journal state is not called again; from a clean question a contacted provider fails the call only by leaving the question stuck, and an answering one only if the request cannot be written; a stuck question refuses with nothing changed |
| `WorkflowRun.Workspace.AnswerQuestion` | scripts/run_longmemeval_e6b_head20_external.py:4573-4655 | from a clean question and an answering provider the QA artifact is reached, unless some request or the artifact cannot be written from the replies it ends with; a contacted provider can only leave the question stuck instead; a stuck question refuses with nothing changed |
| `WorkflowRun.Workspace.RunQa` | scripts/run_longmemeval_e6b_head20_external.py:4549-4660 | reconciles all questions before the first call; ends with all QA artifacts, or for a stuck question, a refused call, or a reply it is heading for that makes a request or artifact impossible to write; a stuck disk stays stuck |
| `WorkflowRun.Workspace.FinalizeOffline` | scripts/run_longmemeval_e6c_v2_merged_lane_external.py:597-625 | with all QA artifacts there, completion and final diagnostic follow without any call |
| `WorkflowRun.Workspace.QaPhase` | scripts/run_longmemeval_e6c_v2_merged_lane_external.py:628-669 | no call unless the gates are sealed with G1 passed; with a contacted provider it fails only with a stuck question or for missing evidence, and with an answering one only if a question was stuck, a reply it is heading for makes something impossible to write, or evidence is missing |
| `WorkflowRun.Workspace.BuildReport` | scripts/run_longmemeval_e6c_v2_merged_lane_external.py:672-794 | unless it is killed, it ends with the report exactly if the gates are sealed and, when G1 passed, the completion is there and no provider request id is repeated |
| `WorkflowRun.Workspace.AuditIds` | scripts/run_longmemeval_e6c_v2_merged_lane_external.py:348-432 | the audit over questions and routes, begun with the extraction's ids, passes exactly if no provider request id repeats another or one of those |
| `Workflow.PutReservation` | scripts/run_longmemeval_e6b_head20_external.py:4452-4490 | the write that precedes every call keeps the invariant, and its requires are the sealed, passing gates |
| `Workflow.PutSeal` | scripts/run_longmemeval_e6c_v2_merged_lane_external.py:499-547 | sealing over complete evidence keeps the invariant |
| `Workflow.PutQa` | scripts/run_longmemeval_e6b_head20_external.py:4549-4666 | a QA artifact over the complete receipts of its question keeps the invariant |
| `Workflow.PutReport` | scripts/run_longmemeval_e6c_v2_merged_lane_external.py:723-794 | a terminal report keeps the invariant |
| `Workflow.CleanIsSettled` | scripts/run_longmemeval_e6b_head20_external.py:4344-4351 | when every question is clean, every reservation is settled |
| `ResumeTrace.LoadResumePrefix` | scripts/run_longmemeval_reranker_ab.py:250-322 | accepts an absent file as the empty prefix and otherwise exactly the encodings of non-empty reloadable row lists, and returns those rows and their id sets |
| `ResumeTrace.CheckLine` | scripts/run_longmemeval_reranker_ab.py:287-310 | one line: accepted exactly if canonical, pinned to this identity, rebuilt from its own trace and with two different ids; coverage, strictness and canonical form are refused in this order |
| `ResumeTrace.Checkpoint.Process` | scripts/run_longmemeval_reranker_ab.py:404-636 | one start: rows on disk are only extended, by this start's own answers; uninterrupted, it publishes if and only if nothing is published, the closing checks hold and a run can be completed from the rows on disk |
| `ResumeTrace.Checkpoint.Schedule` | scripts/run_longmemeval_reranker_ab.py:187-225 | any number of starts with any deaths: the file stays absent or the encoding of exactly the completed rows with distinct ids, rows are only added, at most one manifest is ever published, over all rows, and it binds the file as it stays |
| `ResumeTrace.Checkpoint.AskNext` | scripts/run_longmemeval_reranker_ab.py:545-579 | one question adds exactly one line, atomically, or nothing |
| `ResumeTrace.Checkpoint.Publish` | scripts/run_longmemeval_reranker_ab.py:593-633 | publishes only over all rows that replay under this identity, and reads back from the file the rows it holds in memory |
| `ResumeTrace.EncodeIsInjective` | scripts/run_longmemeval_reranker_ab.py:280-284 | two row lists with the same bytes are the same list |
| `ResumeTrace.EncodedReadsBack` | scripts/run_longmemeval_reranker_ab.py:265-289 | a written file ends with LF, has no CR, and its lines parse back to its rows |
| `ResumeTrace.WrittenButNotTakenUp` | scripts/run_longmemeval_reranker_ab.py:545-579 | the input on which resumption is false: a row of another identity, or one that does not replay, is written by the loop and refused by every later start |
| `ResumeTrace.OnlyOneRunIsLeft` | scripts/run_longmemeval_reranker_ab.py:538-579 | with all rows on disk a run can be completed exactly if these rows are reloadable |
| `Splitting.SplitTerminated` | scripts/run_longmemeval_reranker_ab.py:280-284 | splitting at the separator gives back the pieces that were written |
| `Splitting.TerminatedSplit` | scripts/run_longmemeval_reranker_ab.py:280-284 | and writing the pieces gives back what was split |
| `SignTest.PValueRange` | scripts/evaluate_packing_ab.py:77-84 | a p-value is in (0, 1], is 1 exactly when wins do not exceed losses, and is at most 1/2 otherwise |
| `SignTest.AddedWin` | scripts/evaluate_packing_ab.py:77-84 | one more win never raises p, and lowers it exactly when wins are not behind, across both branches |
| `SignTest.AddedLoss` | scripts/evaluate_packing_ab.py:77-84 | one more loss never lowers p, and raises it exactly when wins were ahead |
| `SignTest.PValueIsProbability` | scripts/evaluate_packing_ab.py:80-84 | p is the share, among all equally likely win/loss sequences, of those with at least as many wins |
| `SignTest.TailCountsDraws` | scripts/evaluate_packing_ab.py:83-83 | the summed binomials count those sequences |
| `SignTest.DrawsAreAll` | scripts/evaluate_packing_ab.py:84-84 | the sequences that are counted are all win/loss sequences of this length |
| `SignTest.CompareMeans` | scripts/evaluate_packing_ab.py:109-126 | wins minus losses is the difference of the arms' totals, the reported ties are the equal pairs, and p < 1 (then p <= 1/2) exactly when the mean rose |
| `SignTest.CompareCounts` | scripts/evaluate_packing_ab.py:105-126 | wins, losses and ties are the numbers of answerable questions of each kind, and the delta is their difference over the number of answerable questions; there is a comparison exactly if some question is answerable |
| `SignTest.SwappedCompare` | scripts/evaluate_packing_ab.py:109-126 | exchanging the arms exchanges wins and losses and negates the delta, and one of the two p-values is 1 |
| `RankingMetrics.AveragePrecision` | scripts/run_longmemeval_e6c_merged_lane_external.py:945-958 | the loop over ranks computes the specified average precision, and nothing for an empty gold list |
| `RankingMetrics.Ndcg` | scripts/run_longmemeval_e6c_merged_lane_external.py:961-972 | the two sums over the ranks compute the specified nDCG and nothing for an empty gold list |
| `RankingMetrics.MetricBounds` | scripts/run_longmemeval_e6c_merged_lane_external.py:945-972 | AP and nDCG lie in [0, 1], and each is 1 exactly when the gold set, of size g, is the set of the first g deduplicated sessions |
| `RankingMetrics.SwapRaises` | scripts/run_longmemeval_e6c_merged_lane_external.py:945-972 | moving a gold session ahead of its non-gold neighbour strictly raises both |
| `RankingMetrics.BetweenReciprocalRankAndRecall` | scripts/run_longmemeval_e6c_merged_lane_external.py:924-958 | AP is at most the answer-session recall, and AP times the number of gold sessions at least the reciprocal rank, which is taken over the list before deduplication |
| `RankingMetrics.DeduplicatedMeans` | scripts/run_longmemeval_e6c_merged_lane_external.py:941-942 | deduplication keeps exactly the sessions, each once, and is the identity on lists without repetition |
| `RankingMetrics.DeduplicatedPrefix` | scripts/run_longmemeval_e6c_merged_lane_external.py:941-942 | the first occurrence counts: what a prefix keeps, and where, is kept by the whole list |
| `RankingMetrics.ContextAgrees` | scripts/run_longmemeval_e6c_merged_lane_external.py:924-938 | any, recall and reciprocal rank agree on whether there is a hit; all means recall 1 |
| `RankingMetrics.ContextMeans` | scripts/run_longmemeval_e6c_merged_lane_external.py:924-938 | any and all say whether some or every gold session is ranked, and the recall times the number of gold sessions is the number of those ranked |
| `RankingMetrics.ReciprocalRankMeans` | scripts/run_longmemeval_e6c_merged_lane_external.py:924-938 | the reciprocal rank times the first gold rank is 1, and it is 0 when no gold session is ranked |
| `RankingMetrics.FirstGoldRank` | scripts/run_longmemeval_e6c_merged_lane_external.py:924-938 | the rank behind the reciprocal rank holds a gold session, no earlier rank does, and there is none exactly if no gold session is ranked |
| `RankingMetrics.PrecisionBounds` | scripts/run_longmemeval_e6c_merged_lane_external.py:945-958 | the precision sum is at most the number of hits, and equal to it exactly when all hits come first |
| `RankingMetrics.GainBounds` | scripts/run_longmemeval_e6c_merged_lane_external.py:961-972 | the gain is at most the ideal gain of as many hits, and equal to it exactly when all hits come first |
| `JsonPointer.RoundTrip` | scripts/evaluate_sota_readiness.py:242-262 | for every document and every path of keys and in-range indexes, the pointer printed with the escaping of section 3 of RFC 6901 resolves to the value at that path |
| `JsonPointer.Evaluate` | scripts/evaluate_sota_readiness.py:242-262 | the loop over the segments resolves like the walk it is specified by, with its two errors |
| `JsonPointer.DecodedEscaped` | scripts/evaluate_sota_readiness.py:249-249 | decoding undoes escaping for every name |
| `JsonPointer.OrderMatters` | scripts/evaluate_sota_readiness.py:249-249 | with the two replacements exchanged it would not: the name ~1 comes back as a slash |
| `JsonPointer.ResolvesToAPath` | scripts/evaluate_sota_readiness.py:242-262 | whatever a pointer resolves to is the value at some path of the document |
| `JsonPointer.StrictlyResolved` | scripts/evaluate_sota_readiness.py:242-262 | for every document, pointer and value: RFC 6901 resolves the pointer to the value if and only if the evaluator does, every token is well escaped, and every list index read on the way is its own decimal numeral |
| `JsonPointer.AgreesWithStrict` | scripts/evaluate_sota_readiness.py:242-262 | the evaluator and RFC 6901 give the same result, errors included, exactly if the tokens are well escaped and the indexes plain, or they are well escaped and the pointer leads nowhere |
| `JsonPointer.DecodedIsUnescaped` | scripts/evaluate_sota_readiness.py:249-249 | on well-escaped tokens the two replacements are the one-pass decoding of section 4 |
| `JsonPointer.LooserIndexes` | scripts/evaluate_sota_readiness.py:253-260 | witnesses: a leading zero, a sign, a space and an underscore are accepted in a list index |
| `JsonPointer.IntOfMeans` | scripts/evaluate_sota_readiness.py:252-258 | the tokens that the evaluator reads as a number, and which one: digits, underscores between two of them, an optional sign, spaces around |
| `JsonPointer.DigitsValueMeans` | scripts/evaluate_sota_readiness.py:252-258 | digit literals are exactly those, and underscores do not count |
| `JsonPointer.LeadingZeros` | scripts/evaluate_sota_readiness.py:252-258 | leading zeros do not count, and the rest is the numeral |
| `JsonPointer.LooserEscapes` | scripts/evaluate_sota_readiness.py:249-252 | witness: a tilde that is followed by neither 0 nor 1 is taken as it stands |
| `TokenizerPipe.Tokenizer.Count` | scripts/_longmemeval_tokenizer.py:215-283 | a call succeeds exactly when the process is open and the line it reads answers this request with a fresh receipt; the history grows by one entry, and counters and sizes move only on success |
| `TokenizerPipe.Tokenizer.Drive` | scripts/_longmemeval_tokenizer.py:215-283 | any run of calls, with a worker that names the request it answers: every returned count is the worker's own answer to that text, and after one line that was not read in time every later call fails |
| `TokenizerPipe.Tokenizer.Evidence` | scripts/_longmemeval_tokenizer.py:285-308 | the identity is reported as verified exactly when no issued request has failed; receipts equal responses in every state |
| `TokenizerPipe.Tokenizer.Exchange` | scripts/_longmemeval_tokenizer.py:229-248 | writes one request and reads the oldest unread line, if the weather lets it |
| `TokenizerPipe.StaleIsRefused` | scripts/_longmemeval_tokenizer.py:258-269 | an older line never passes as the answer to a newer request |
| `TokenizerPipe.Tokenizer.DriveClosed` | scripts/_longmemeval_tokenizer.py:215-217 | after closing, every later call fails without being issued, and the published accounting does not move |

## Left out

- Field-by-field schema checks, type checks and error texts of all scripts: long, but settled branch by branch; errors are kept where their kind matters.
- SHA-256, sealing, JSON number formatting and prompt rendering: parameters. `LongMemEval` dataset loading, subprocess launch, HTTP, file-system path and symbolic-link checks: outside.
- Lafs.GainIsBeating: asks for accuracies that are not negative; the report's accuracies are percentages, and with negative ones the score below the first point is the floor 0.
- Lafs.LafsScore: the logarithm is any strictly increasing weight, and floating-point rounding is not modelled.
- OperationTrace.Tier.Validate: latencies are compared exactly; the `isclose` tolerance is not modelled. Tokens and latencies are summed over reals and integers.
- Embedding.Embed: the padding ratio is compared as maximum > 2 * minimum over integers; the retry positions are kept as a set, not in order; devices and timing fields are not modelled.
- SignTest.CompareMeans: the rounding of the reported delta and p-value is not modelled.
- RankingMetrics.MetricBounds: 1 / log2(rank + 1) is any positive strictly decreasing weight; sums are exact.
- JsonPointer.Evaluate: list indexes are read over ASCII; other Unicode digits and spaces, and Python's limit on the number of digits, are not modelled.
- ResumeTrace.Checkpoint.Process: one process at a time; two concurrent processes over one trace file are not modelled. The manifest builder's `splitlines` is modelled as a split at LF, which agrees on canonical ASCII JSON.
- TokenizerPipe.Tokenizer.Count: the worker is one function from requests to lines; the operating system's buffering only shows as lines that are late.
- The extraction, dense-retrieval and ranking phases of the workflow, with their own journals and the spend ledger: the QA journal shows the same protocol. The extraction's provider request ids are a parameter.
- WorkflowRun.Workspace.RunAll: does not compute the spend cap; a call that the cap, the endpoint or the key refuses before its reservation is a refused call, and an answering provider has none.
- The workflow's artifacts are compared as whole values; the hash bindings inside them are not modelled.
- Bootstrap intervals, Wilson intervals and the paired contrasts of the reports: no exact law to prove.
- The coordination kernel, the database and the cloud adapters: not part of this model.
