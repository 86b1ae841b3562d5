# plm-repair-them-all: the decision logic of the repair pipeline, in Dafny

This project models the discrete core of an automated-program-repair pipeline
for pretrained language models. The pipeline:

- builds cloze prompts from a bug's ground-truth diff;
- generates candidate patches with a pool of workers;
- evaluates each candidate on a benchmark (QuixBugs, GitBug-Java);
- computes statistics over the evaluations.

The model keeps the pipeline's decisions and drops its plumbing:

- **Evaluation** (`evaluation.dfy`, `diffs.dfy`, `scheduling.dfy`):
  - the candidate verdicts (exact match, compilable, plausible);
  - the single-hunk and single-chunk classifiers over a parsed diff;
  - the `compute_statistics` fold and the export category of a candidate;
  - the correctness stage of `entry_point`. It fails on the first unknown bug identifier, and otherwise collects results in an arbitrary completion order (`picks`), which holds every evaluated sample exactly once.
- **Cloze prompts** (`clozescan.dfy`, `cloze.dfy`):
  - the two diff scanners `find_all_diff_hunks` and `find_longest_diff_hunk`;
  - `generate_masking_prompt`;
  - the line-rewriting passes `one_hunk_prompt` and `single_diff_file_prompt`, with the strategy object's fields (`mask_token_id`, `pre_mask_token`, `distance`, ...) threaded through as an explicit `ClozeState`; every call returns that state with its result, also when it raises, since Python keeps the fields written before the exception;
  - the `MASK_DICT` lookup and single-hunk guard of `prompt`.
- **Benchmarks** (`processes.dfy`, `backoff.dfy`, `gitbugjava.dfy`, `quixbugs.dfy`):
  - every subprocess is an abstract `Outcome` (exit code and output, timeout, or failure to start), and `subprocess.run` turns it into a return or an exception;
  - GitBug-Java: checkout under the `backoff` retry policy (3 tries, 1 s apart, retried only on `CalledProcessError`), the `compile` refusal, the PATH overlay, and the test verdict read from `Failing tests: N`;
  - QuixBugs: checkout is a copy of six files between two file maps, and compile/test are exit-code verdicts.
- **Generation** (`generation.dfy`):
  - the round-robin split `samples[i::n_workers]`;
  - `generate_candidate`'s per-sample update;
  - the concatenation of chunks in completion order;
  - the output file name.

Python exceptions are `Err` values of `Outcomes.Result`. `str.split`,
`'sep'.join`, `lstrip`, `re.match(r'^\s*')` and `int(...)` of a digit
string are written out in `strings.dfy`. List comprehensions and `sum` are
in `folds.dfy`.

Some notes on reading the code:

- `prompt` asserts `model_name in MASK_DICT` and then looks up `model_name.lower()`. Every key is lower-case, so a name that passes the assertion is its own lower-case form. The model looks up the name itself.
- `template.format(n)` is modelled as replacing the first `{}` by the decimal digits of `n`. The templates in `MASK_DICT` have at most one `{}` and no other braces.
- `generate_patches.py` splits the whole `samples_path` on `_`, not its base name, and the model does the same. `evaluate_patches.py` uses the base name, but that parse is left out (see below).
- A sample's ground truth enters `Cloze.Prompt` twice, as given by the caller:
  - as the parsed `Patch` for the single-hunk guard;
  - as raw text for the scanners.

## Model

| member | source | states |
|---|---|---|
| Evaluation.Plausible | evaluate_patches.py:38-49 | a plausible candidate both compiles and passes its tests, so every plausible candidate is compilable |
| Evaluation.ExactMatch | evaluate_patches.py:31-35 | the candidate's `exact_match` verdict; `ExportCategory` states that it outranks every other category and `StatisticsBugCounts` that it alone decides the exact-match bug count |
| Evaluation.Compilable | evaluate_patches.py:45-49 | the candidate's `compile` verdict; `Plausible` states that every plausible candidate has it |
| Evaluation.PlausibleSolvedIsCompilable | evaluate_patches.py:38-49 | a sample with a plausible candidate also has a compilable candidate |
| Diffs.IsSingleChunk | evaluate_patches.py:52-78 | the loop returns true exactly when the patch has one file with one hunk and no context line sits between two added/removed lines of that hunk |
| Diffs.IsSingleHunk | evaluate_patches.py:81-87 | one file with one hunk; `SingleChunkFacts` states that every single-chunk patch is one, and `Cloze.Prompt` that only such a patch gets a prompt |
| Diffs.SingleChunkFacts | evaluate_patches.py:52-87 | a single-chunk patch is a single-hunk patch; a single hunk without any added or removed line counts as a single chunk |
| Diffs.ContiguousIffOneRun | evaluate_patches.py:60-76 | the changed lines are contiguous exactly when they form at most one maximal run |
| Diffs.NoRunsNoChanges | evaluate_patches.py:60-76 | there are no runs of changed lines exactly when no line is added or removed |
| Evaluation.TallyStep | evaluate_patches.py:110-151 | one loop iteration adds the sample's own contribution to each counter and appends its identifier to each list it qualifies for |
| Evaluation.ComputeStatistics | evaluate_patches.py:90-153 | `num_bugs` is the number of samples |
| Evaluation.StatisticsBugCounts | evaluate_patches.py:110-151 | each per-bug counter equals the number of samples with a prompt, with candidates, or solved exactly/plausibly/compilably |
| Evaluation.StatisticsPatchSums | evaluate_patches.py:114-136 | each patch counter is the sum of the per-sample counts, which are zero for a sample without candidates |
| Evaluation.StatisticsLists | evaluate_patches.py:137-151 | each `bugs_with_*` list is exactly the identifiers of the qualifying samples in input order, so its length is the matching counter |
| Evaluation.PlausiblePatchesBound | evaluate_patches.py:128-133 | summed over any samples, plausible patches never exceed compilable patches |
| Evaluation.StatisticsBounds | evaluate_patches.py:110-151 | plausible bugs ≤ compilable bugs ≤ bugs with candidates ≤ bugs, exact-match bugs ≤ bugs with candidates, and plausible patches ≤ compilable patches |
| Evaluation.WellFormedPatchSums | evaluate_patches.py:122-136 | when a candidate without a generation always has all-false verdicts, compilable and exact-match patch sums are bounded by the patch sum |
| Evaluation.WellFormedPatchBounds | evaluate_patches.py:122-136 | on such records plausible ≤ compilable ≤ patches and exact-match ≤ patches |
| Evaluation.StatisticsOrderIndependent | evaluate_patches.py:90-153 | rearranging the samples changes no counter and only the order of the identifier lists |
| Evaluation.StatisticsReport | evaluate_patches.py:255-281 | the three files cover nested sample sets: the single-chunk bug count ≤ the single-hunk bug count ≤ the number of samples |
| Evaluation.ReportOrderIndependent | evaluate_patches.py:255-281 | all three statistics files are independent of the order of the samples |
| Evaluation.ExportCategory | evaluate_patches.py:180-195 | a candidate without a generation is not exported; otherwise exact match takes precedence over plausible, plausible over compilable, else non_compilable; each generated candidate gets one category |
| Evaluation.PlanUpTo | evaluate_patches.py:180-203 | the plan for the first n candidates has as many entries as generated candidates, each for a candidate index below n and carrying that candidate's `ExportCategory`; `PlanIncreases` and `PlanCovers` pin down which indices |
| Evaluation.PlanIncreases | evaluate_patches.py:180-203 | the plan's indices strictly increase, so no `{i}.diff` is written twice |
| Evaluation.PlanCovers | evaluate_patches.py:180-203 | every generated candidate among the first n has an entry, so with the count the plan is exactly one entry per generated candidate |
| Evaluation.ExportPlan | evaluate_patches.py:160-203 | a sample exports exactly `Patches(s)` diff files, none without candidates; with candidates, every generated candidate's index appears exactly once, in increasing order, under its category |
| Evaluation.ExportMatchesStatistics | evaluate_patches.py:160-203 | the number of exported candidate diffs equals `num_patches` |
| Evaluation.EvaluateCandidate | evaluate_patches.py:17-28 | raises exactly what the strategy raises; otherwise the sample gets the strategy's evaluation records and nothing else about it changes |
| Evaluation.FirstUnknown | evaluate_patches.py:240-243 | finds the first sample whose identifier is not in the benchmark, or reports that all are known |
| Evaluation.EntryPoint | evaluate_patches.py:236-252 | a non-positive worker count raises the executor's `ValueError`; otherwise an unknown identifier raises `ValueError("Unknown bug <id>")` for the first such sample; otherwise it fails iff the strategy raises for some sample, with that exception, and on success the results are a permutation of the evaluated samples |
| Evaluation.CollectedEvaluations | evaluate_patches.py:244-251 | in any completion order, collecting the futures fails iff some evaluation raises, with what one of them raised, and otherwise returns the evaluated samples, each exactly once |
| Evaluation.CompletionOrderIrrelevant | evaluate_patches.py:248-281 | two completion orders give the same counters and the same identifier multisets in all three statistics files |
| Scheduling.Drain | evaluate_patches.py:248-251 | one result per submitted future, the first being the one the scheduler picks; `DrainPermutes` states that every result comes back exactly once |
| Scheduling.DrainPermutes | evaluate_patches.py:248-251 | collecting `as_completed` results returns every submitted result exactly once, whatever the order |
| Scheduling.DrainReachesEveryOrder | evaluate_patches.py:248-251 | every rearrangement of the submitted results is a possible completion order |
| Scheduling.Collect | evaluate_patches.py:250-251 | collecting results in order returns all values iff none raised, and otherwise re-raises the first exception |
| Scheduling.DrainCollectStatus | evaluate_patches.py:248-251 | in any completion order, collecting fails iff some result is an exception, and then with one of the submitted exceptions |
| Scheduling.DrainCollectValues | generate_patches.py:54-59 | when every result is a value, collecting in any completion order returns those values in that order |
| Scheduling.FlattenDrain | generate_patches.py:54-59 | extending the results by each chunk in any completion order keeps every element exactly once |
| Cloze.MaskToken | elleelleaime/sample/prompting/strategies/zero_shot_cloze.py:49 | the numbered token differs from its template exactly when the template has a `{}` slot |
| Cloze.MaskTokenInjective | elleelleaime/sample/prompting/strategies/zero_shot_cloze.py:49-53 | with a slot, two numbers give the same token only if they are equal |
| Cloze.MaskTokenSingleLine | elleelleaime/sample/prompting/strategies/zero_shot_cloze.py:49 | a token has no line break unless its template has one |
| Cloze.BeginHunk | elleelleaime/sample/prompting/strategies/zero_shot_cloze.py:49-53 | the counter rises by one per hunk unless strict; only the counter and the previous token change, and the previous token is unchanged when strict or on the first hunk |
| Cloze.ConsecutiveHunks | elleelleaime/sample/prompting/strategies/zero_shot_cloze.py:49-53 | the second of two non-strict hunks remembers the first one's token, and the two tokens differ exactly when the template has a slot |
| Cloze.GenerateMaskingPrompt | elleelleaime/sample/prompting/strategies/zero_shot_cloze.py:95-101 | the result ends with the token and is never longer than line plus token |
| Cloze.MaskingKeepsIndentation | elleelleaime/sample/prompting/strategies/zero_shot_cloze.py:95-101 | the masking prompt keeps exactly the line's indentation, and stripping it leaves the token alone, so the rest of the line is discarded |
| Cloze.PyIndex | elleelleaime/sample/prompting/strategies/zero_shot_cloze.py:61-62 | Python indexing: in range iff -len ≤ i < len, counting from the end for negative i, `IndexError` otherwise |
| Cloze.Step | elleelleaime/sample/prompting/strategies/zero_shot_cloze.py:55-92 | one loop iteration can only fail with `IndexError` |
| Cloze.Scan | elleelleaime/sample/prompting/strategies/zero_shot_cloze.py:54-93 | a pass emits at most one line per code line and can only fail with `IndexError` |
| Cloze.StepOneLine | elleelleaime/sample/prompting/strategies/zero_shot_cloze.py:57-59 | with a one-line hunk and no distance to check, a matching line is masked and any other line copied |
| Cloze.StepNoMatch | elleelleaime/sample/prompting/strategies/zero_shot_cloze.py:73-76 | a non-matching line is omitted inside the skipped region and copied outside it |
| Cloze.OneLineHunkMasksEveryMatch | elleelleaime/sample/prompting/strategies/zero_shot_cloze.py:54-93 | a one-line hunk (no distance on the fixed side) never fails, and masks every matching line and copies the others, in order |
| Cloze.ScanOneLineHunk | elleelleaime/sample/prompting/strategies/zero_shot_cloze.py:54-93 | that pass over the code lines equals the reference `MaskEveryMatch`: each line whose `lstrip()` equals the key becomes its masking prompt |
| Cloze.OneLineHunkPrompt | elleelleaime/sample/prompting/strategies/zero_shot_cloze.py:45-93 | `one_hunk_prompt` with a one-line hunk is the reference masking joined by line breaks; the key is the stripped fixed line, but the unstripped buggy line |
| Cloze.StepLookBack | elleelleaime/sample/prompting/strategies/zero_shot_cloze.py:58-67 | with a nonzero distance a matching line's step succeeds iff its look-back index is in range, and then masks iff the line found there strips to the previous token |
| Cloze.DistanceGuardsFailure | elleelleaime/sample/prompting/strategies/zero_shot_cloze.py:58-67 | the pass fails exactly when some matching line looks back out of range |
| Cloze.DistanceGuardsMasking | elleelleaime/sample/prompting/strategies/zero_shot_cloze.py:58-67 | when it succeeds, each line is masked exactly when it matches and its look-back finds the previous token |
| Cloze.IndentedHunkNeverMasked | elleelleaime/sample/prompting/strategies/zero_shot_cloze.py:79-92 | a buggy hunk whose first line starts with whitespace never matches a stripped code line, so the code comes back unchanged |
| Cloze.SkipRegion | elleelleaime/sample/prompting/strategies/zero_shot_cloze.py:72-74 | lines inside the skipped region that do not start a match are dropped |
| Cloze.MultiLineHunkMasked | elleelleaime/sample/prompting/strategies/zero_shot_cloze.py:69-74 | a line matching the hunk's first line, followed by one matching its second, becomes the mask, and the next len(hunk)-1 lines are omitted |
| Cloze.LastLineMatchRaises | elleelleaime/sample/prompting/strategies/zero_shot_cloze.py:69 | a multi-line hunk whose first line matches the last code line makes the pass raise `IndexError` |
| Cloze.ScanNonEmpty | elleelleaime/sample/prompting/strategies/zero_shot_cloze.py:54-93 | a successful pass over non-empty code outside a skip region emits at least one line |
| Cloze.ScanSingleLines | elleelleaime/sample/prompting/strategies/zero_shot_cloze.py:54-93 | a pass never introduces a line break |
| Cloze.OneHunkPrompt | elleelleaime/sample/prompting/strategies/zero_shot_cloze.py:45-93 | without a template it raises `TypeError` and changes nothing; otherwise it can only raise `IndexError`, and whether it returns or raises, the counter has already advanced by one unless strict and the previous token is the last number's when the counter was nonzero; no other field changes |
| Cloze.SingleDiffFilePrompt | elleelleaime/sample/prompting/strategies/zero_shot_cloze.py:32-43 | with a template set, it can only fail with `IndexError`; strictness and template are kept; on a failure in pass k the object keeps that pass's `distance` and a counter advanced by k+1 (none when strict) |
| Cloze.PassesErrors | elleelleaime/sample/prompting/strategies/zero_shot_cloze.py:32-43 | a chain of passes fails only with `IndexError` once a template is set |
| Cloze.HunkPassState | elleelleaime/sample/prompting/strategies/zero_shot_cloze.py:35-42 | one pass leaves `distance` set to its hunk's distance and advances the counter by one unless strict or without a template, whether it returns or raises |
| Cloze.PassesKeepSettings | elleelleaime/sample/prompting/strategies/zero_shot_cloze.py:32-43 | a chain of passes never changes strictness or template, whether it returns or raises |
| Cloze.PassesNumbering | elleelleaime/sample/prompting/strategies/zero_shot_cloze.py:32-43 | a chain of passes that returns has advanced the counter by the number of hunks (none when strict); returning or raising, it keeps strictness and template |
| Cloze.PassesLastDistance | elleelleaime/sample/prompting/strategies/zero_shot_cloze.py:35-42 | after a successful chain, `distance` is the last hunk's distance |
| Cloze.PassesRaise | elleelleaime/sample/prompting/strategies/zero_shot_cloze.py:35-53 | a chain that raises does so in some pass k: `distance` is that hunk's and the counter has advanced by k+1 (none when strict or without a template), since each pass writes both before it can raise |
| Cloze.SingleDiffFilePromptNumbering | elleelleaime/sample/prompting/strategies/zero_shot_cloze.py:32-43 | when there are fixed hunks, the buggy hunks and the buggy code are irrelevant; the counter advances by the hunk count of the side used |
| Cloze.SingleHunkIsOnePass | elleelleaime/sample/prompting/strategies/zero_shot_cloze.py:34-38 | with one fixed hunk, splitting and re-joining loses nothing: the result is that hunk's `one_hunk_prompt` |
| Cloze.NextPassSeesPassOutput | elleelleaime/sample/prompting/strategies/zero_shot_cloze.py:37 | for line-break-free code and templates, `split('\n')` of a pass's prompt is exactly the lines that pass produced |
| Cloze.IsCodeLine | elleelleaime/sample/prompting/strategies/zero_shot_cloze.py:190 | the comment filter; `CodeLineOutsideComment` states what it keeps |
| Cloze.CodeLineOutsideComment | elleelleaime/sample/prompting/strategies/zero_shot_cloze.py:190 | a diff line is kept exactly when it has a character that is neither whitespace nor inside a `//` comment |
| Cloze.CommentLineIsNotCode | elleelleaime/sample/prompting/strategies/zero_shot_cloze.py:190 | a line that is only whitespace before `//` is dropped |
| Cloze.Passes | elleelleaime/sample/prompting/strategies/zero_shot_cloze.py:35-43 | the loop over one side's hunks; `PassesNumbering`, `PassesLastDistance`, `PassesRaise` and `PassesKeepSettings` state what it leaves in the object |
| Cloze.ClozeFromCode | elleelleaime/sample/prompting/strategies/zero_shot_cloze.py:187-199 | with a template set, prompt construction can only fail with `IndexError`; template and strictness are always kept; the strict path is one pass that leaves `distance` alone and advances the counter by one unless the object's own flag is set; the all-hunks path advances it by the number of hunks masked on success, and on a failure in hunk k by k+1 with that hunk's `distance` |
| Cloze.Prompt | elleelleaime/sample/prompting/strategies/zero_shot_cloze.py:214-229 | the strictness flag is stored before the assertion, so an unknown model fails with its name and leaves the flag set; otherwise the model's template is stored too, a diff that is not one hunk of one file gives no prompt and changes nothing else, and a prompt is returned only for a single hunk, with the code passed through |
| ClozeScan.Inverse | elleelleaime/sample/prompting/strategies/zero_shot_cloze.py:106 | the inverse sign is never the sign |
| ClozeScan.IsHunkLineByPrefix | elleelleaime/sample/prompting/strategies/zero_shot_cloze.py:115 | the hunk-line test read off the first two characters holds exactly when the line starts with the sign and not with the sign twice |
| ClozeScan.ScanHunks | elleelleaime/sample/prompting/strategies/zero_shot_cloze.py:110-124 | the first recorded hunk has distance 0, every later one at least 1, and no recorded hunk is empty |
| ClozeScan.ScanHunksAccounts | elleelleaime/sample/prompting/strategies/zero_shot_cloze.py:110-124 | there are as many recorded hunks as closed runs of hunk lines, the open hunk is as long as the trailing run, and every line is counted once: before the first hunk, in a hunk, or in a distance |
| ClozeScan.ScanHunksLineCount | elleelleaime/sample/prompting/strategies/zero_shot_cloze.py:110-124 | every line read is counted exactly once: before the first hunk line, in a recorded hunk, in the open run, or in a distance |
| ClozeScan.ScanHunksOrigin | elleelleaime/sample/prompting/strategies/zero_shot_cloze.py:114-116 | every stored line is a single-signed input line without its sign, so `---`/`+++` headers never get in |
| ClozeScan.ClosedRunBoundsAreRuns | elleelleaime/sample/prompting/strategies/zero_shot_cloze.py:114-121 | each listed pair is a maximal run of hunk lines closed by the next line |
| ClozeScan.ClosedRunBoundsComplete | elleelleaime/sample/prompting/strategies/zero_shot_cloze.py:114-121 | every line that closes a run ends one of the listed runs |
| ClozeScan.ClosedRunBoundsOrdered | elleelleaime/sample/prompting/strategies/zero_shot_cloze.py:114-121 | the runs are listed in order of appearance, each starting after the previous one's closing line |
| ClozeScan.ScanHunksOpenLines | elleelleaime/sample/prompting/strategies/zero_shot_cloze.py:114-116 | the open hunk holds the trailing run's lines without their signs |
| ClozeScan.ScanHunksLines | elleelleaime/sample/prompting/strategies/zero_shot_cloze.py:114-121 | recorded hunk k holds the lines of closed run k without their signs |
| ClozeScan.ScanHunksDistances | elleelleaime/sample/prompting/strategies/zero_shot_cloze.py:117-123 | the first recorded hunk has distance 0 and hunk k > 0 the number of lines from the closing line of run k-1 to the start of run k |
| ClozeScan.ScanHunksExact | elleelleaime/sample/prompting/strategies/zero_shot_cloze.py:110-124 | hunk k is closed run k's lines without their sign, with the distance from the previous run; there are as many hunks as closed runs |
| ClozeScan.ScanHunksExpected | elleelleaime/sample/prompting/strategies/zero_shot_cloze.py:110-124 | the scan records exactly the reference list `ExpectedHunks` |
| ClozeScan.Kept | elleelleaime/sample/prompting/strategies/zero_shot_cloze.py:106-107 | no kept line starts with the other side's sign |
| ClozeScan.TrailingRunNotRecorded | elleelleaime/sample/prompting/strategies/zero_shot_cloze.py:114-124 | hunk lines at the end of the input add no recorded hunk |
| ClozeScan.FindAllDiffHunks | elleelleaime/sample/prompting/strategies/zero_shot_cloze.py:103-124 | the lines of the other side are dropped, and the result is exactly `ExpectedHunks` of the rest: the closed runs in order of appearance, without their signs, the first at distance 0 and each later one at the distance from the previous run's closing line; none is empty |
| ClozeScan.InverseLinesIgnored | elleelleaime/sample/prompting/strategies/zero_shot_cloze.py:106-107 | inserting a line of the other side anywhere does not change the hunks found |
| ClozeScan.ScanLongest | elleelleaime/sample/prompting/strategies/zero_shot_cloze.py:129-145 | the open run is always the trailing run of hunk lines and `max_len` is the length of the best run |
| ClozeScan.FindLongestDiffHunk | elleelleaime/sample/prompting/strategies/zero_shot_cloze.py:126-145 | no run of hunk lines closed anywhere in the diff is longer than the result; `LongestClosedRun` states which run it is |
| ClozeScan.LongestIsMaximal | elleelleaime/sample/prompting/strategies/zero_shot_cloze.py:134-145 | no run closed within the lines read is longer than the recorded longest hunk |
| ClozeScan.LongestClosedRun | elleelleaime/sample/prompting/strategies/zero_shot_cloze.py:126-145 | the result is the first closed run of maximal length, with its signs (ties keep the earlier run), or empty when no run is closed |
| ClozeScan.LongestIgnoresTrailingRun | elleelleaime/sample/prompting/strategies/zero_shot_cloze.py:134-145 | a run still open at the end of the input is never returned |
| Backoff.RetryFrom | elleelleaime/core/benchmarks/gitbugjava/gitbugjavabug.py:22-24 | the trace stops at the first call that does not raise the retried error or at the last allowed call, and has one wait of the interval between calls; its result is the last call's |
| Backoff.Retry | elleelleaime/core/benchmarks/gitbugjava/gitbugjavabug.py:22-24 | at least one and at most `max_tries` calls, with one wait fewer |
| Backoff.RetryStopsAtFirstSettled | elleelleaime/core/benchmarks/gitbugjava/gitbugjavabug.py:22-24 | the first call that settles within the limit decides the outcome |
| Backoff.RetryGivesUp | elleelleaime/core/benchmarks/gitbugjava/gitbugjavabug.py:22-24 | if every allowed call raises the retried error, the last one's exception propagates after `max_tries` calls |
| Processes.Run | elleelleaime/core/benchmarks/gitbugjava/gitbugjavabug.py:50-56 | a run returns iff the process exited and, under `check=True`, with 0; a checked nonzero exit raises `CalledProcessError`, a timeout `TimeoutExpired`, a start failure `OSError` |
| Processes.CheckedRunSucceeded | elleelleaime/core/benchmarks/gitbugjava/gitbugjavabug.py:30-37 | after a checked run returns, its return code is 0 |
| GitBugJava.CheckoutCommand | elleelleaime/core/benchmarks/gitbugjava/gitbugjavabug.py:30-31 | the command starts with `<bin> checkout <bid> <path> ` and ends with `--fixed` exactly when `fixed` |
| GitBugJava.CheckoutAttempt | elleelleaime/core/benchmarks/gitbugjava/gitbugjavabug.py:25-37 | one call returns iff the tool exits with 0, and then returns True; it raises the retried error exactly on a nonzero exit |
| GitBugJava.Checkout | elleelleaime/core/benchmarks/gitbugjava/gitbugjavabug.py:22-37 | 1 to 3 calls with 1 s waits; every earlier call exited nonzero; the result is True iff the last call exited 0; a propagated `CalledProcessError` means three calls |
| GitBugJava.CheckoutOtherErrorsNotRetried | elleelleaime/core/benchmarks/gitbugjava/gitbugjavabug.py:22-24 | a timeout or start failure on the first call propagates without a retry |
| GitBugJava.CheckoutGivesUp | elleelleaime/core/benchmarks/gitbugjava/gitbugjavabug.py:22-24 | three nonzero exits make the third one's `CalledProcessError` reach the caller |
| GitBugJava.Compile | elleelleaime/core/benchmarks/gitbugjava/gitbugjavabug.py:39-42 | always raises `NotImplementedError` and runs nothing |
| GitBugJava.OverlayPath | elleelleaime/core/benchmarks/gitbugjava/gitbugjavabug.py:46-49 | raises `KeyError('PATH')` iff PATH is unset; otherwise only PATH changes, to `<bench>:<bench>/bin:` followed by the old PATH, so its length is twice the benchmark path's plus 6 plus the old length |
| GitBugJava.OverlayPathEntries | elleelleaime/core/benchmarks/gitbugjava/gitbugjavabug.py:46-49 | for a benchmark path without `:`, the new PATH lists the benchmark directory, then its `bin`, then every entry of the old PATH |
| GitBugJava.SearchFailing | elleelleaime/core/benchmarks/gitbugjava/gitbugjavabug.py:59 | finds the leftmost position where `Failing tests: ` is followed by a digit, or reports that none exists |
| GitBugJava.DigitRun | elleelleaime/core/benchmarks/gitbugjava/gitbugjavabug.py:59 | the greedy `[0-9]+`: the maximal run of digits at the position |
| GitBugJava.FailingTests | elleelleaime/core/benchmarks/gitbugjava/gitbugjavabug.py:59-61 | there is a count iff the pattern matches somewhere in the output |
| GitBugJava.FailingTestsRoundTrip | elleelleaime/core/benchmarks/gitbugjava/gitbugjavabug.py:59-61 | a report `Failing tests: N` followed by a non-digit is read back as N |
| GitBugJava.Test | elleelleaime/core/benchmarks/gitbugjava/gitbugjavabug.py:44-64 | raises iff PATH is unset or the tool cannot start; passes iff it exits 0 and the first report says 0 failing tests; a timeout is a failed test |
| GitBugJava.TestPassesOnZeroReport | elleelleaime/core/benchmarks/gitbugjava/gitbugjavabug.py:59-62 | a zero exit with a report of any number of zeros passes |
| QuixBugs.AndChainCopies | elleelleaime/core/benchmarks/quixbugs/quixbugsbug.py:27-34 | an `&&`-joined copy command succeeds iff every source exists, and then adds exactly its targets with their sources' contents and keeps every other file |
| QuixBugs.AndChainStatus | elleelleaime/core/benchmarks/quixbugs/quixbugsbug.py:27-34 | an `&&`-joined copy command succeeds iff every one of its sources exists |
| QuixBugs.AndChainWrites | elleelleaime/core/benchmarks/quixbugs/quixbugsbug.py:27-34 | with every source present, an `&&`-joined command adds exactly its targets, each with its source's contents when the targets are distinct, and keeps every other file |
| QuixBugs.SemicolonChainStatus | elleelleaime/core/benchmarks/quixbugs/quixbugsbug.py:27-34 | a `;`-joined command succeeds iff its last source exists, whatever happened to the earlier copies |
| QuixBugs.SourceCopiesDistinct | elleelleaime/core/benchmarks/quixbugs/quixbugsbug.py:27 | for a program not named like a helper, the three copies of the first command write three different files |
| QuixBugs.TestCopiesDistinct | elleelleaime/core/benchmarks/quixbugs/quixbugsbug.py:30 | the two copies of the second command write different files |
| QuixBugs.CommandsWriteDistinctFiles | elleelleaime/core/benchmarks/quixbugs/quixbugsbug.py:27-33 | no file is written by two of the three commands |
| QuixBugs.RunCommand | elleelleaime/core/benchmarks/quixbugs/quixbugsbug.py:28 | a failing copy command raises `CalledProcessError` |
| QuixBugs.CheckoutWith | elleelleaime/core/benchmarks/quixbugs/quixbugsbug.py:14-36 | a checkout that returns returns True; otherwise it raises `CalledProcessError(1)` |
| QuixBugs.CheckoutAsWritten | elleelleaime/core/benchmarks/quixbugs/quixbugsbug.py:14-36 | joined by `;` as written, the checkout returns iff WeightedEdge, the oracle helper and pom.xml exist in the benchmark; no other source is checked, and the workspace holds at most the six files |
| QuixBugs.AsWrittenCheckoutMissesProgram | elleelleaime/core/benchmarks/quixbugs/quixbugsbug.py:27-28 | with the program missing from the benchmark, the as-written checkout still returns True with no program in the workspace |
| QuixBugs.Checkout | elleelleaime/core/benchmarks/quixbugs/quixbugsbug.py:14-36 | the corrected checkout, with the copies joined by `&&` (see Findings): the checkout returns True iff every required benchmark file exists, and the workspace then holds exactly the six files; otherwise it raises `CalledProcessError(1)` |
| QuixBugs.CopyAllFromBenchmark | elleelleaime/core/benchmarks/quixbugs/quixbugsbug.py:27-34 | copies that take the program from the chosen side and every other file from the same path keep every workspace file equal to the benchmark's, joined by `&&` or by `;` |
| QuixBugs.CheckoutWithContents | elleelleaime/core/benchmarks/quixbugs/quixbugsbug.py:14-36 | joined by `&&` or by `;`, every file a returned checkout leaves holds the program from `correct_java_programs` iff `fixed` (`java_programs` otherwise), and every other file the benchmark file at the same path |
| QuixBugs.CheckoutContents | elleelleaime/core/benchmarks/quixbugs/quixbugsbug.py:27-34 | for the corrected `&&` checkout: the program comes from `correct_java_programs` iff `fixed`, and every other file of the six is the benchmark file at the same path |
| QuixBugs.CheckoutFixedOnlyChangesProgram | elleelleaime/core/benchmarks/quixbugs/quixbugsbug.py:27-34 | joined by `&&` or by `;`, the fixed and buggy checkouts agree on every file both hold except the program |
| QuixBugs.CheckoutIdempotent | elleelleaime/core/benchmarks/quixbugs/quixbugsbug.py:16-23 | joined by `&&` or by `;`, checking out over a previous checkout gives the same result as the first checkout, since the old workspace is removed first |
| QuixBugs.MavenVerdict | elleelleaime/core/benchmarks/quixbugs/quixbugsbug.py:38-52 | an unchecked Maven run returns iff the process started, and succeeds iff it exits with 0 |
| QuixBugs.Compile | elleelleaime/core/benchmarks/quixbugs/quixbugsbug.py:38-44 | compiles iff `mvn compile` exits with 0; a nonzero exit does not raise |
| QuixBugs.Test | elleelleaime/core/benchmarks/quixbugs/quixbugsbug.py:46-52 | passes iff `mvn test` exits with 0; a nonzero exit does not raise |
| Generation.Stride | generate_patches.py:46 | `s[i::n]` is empty from a start past the end, and otherwise starts with `s[i]` and is no longer than the rest |
| Generation.Chunks | generate_patches.py:42-46 | a non-positive worker count raises the executor's `ValueError`; otherwise there are exactly `n_workers` chunks |
| Generation.SampleInChunk | generate_patches.py:46 | sample j is dealt to chunk j mod n, at position j div n |
| Generation.ChunkKeepsOrder | generate_patches.py:46 | position q of chunk i holds sample i + q·n, so each chunk keeps the input order |
| Generation.ChunksSnoc | generate_patches.py:46 | one more sample joins exactly the chunk numbered by its index mod n |
| Generation.ChunksPartition | generate_patches.py:46 | together the chunks hold every sample exactly once |
| Generation.ChunkSizesSum | generate_patches.py:46 | the chunk sizes add up to the number of samples |
| Generation.GenerateOne | generate_patches.py:21-26 | raises exactly what the strategy raises; otherwise only the generation changes, to the strategy's result |
| Generation.GenerateLoop | generate_patches.py:21-27 | the loop fails iff the strategy raises for some sample, with the first such exception; otherwise every sample gets the generation for its prompt, no other field changes, and the order is kept |
| Generation.GenerateCandidate | generate_patches.py:12-27 | a failing strategy lookup raises its error before any sample, even for an empty chunk; otherwise the chunk fails iff the strategy raises for some sample, with the first such exception, and a success gives every sample the generation for its prompt |
| Generation.KwargsString | generate_patches.py:64 | the `k=v` pairs joined by `_` in insertion order; `KwargsRoundTrip` states that splitting at `_` gives them back when no key or value contains `_` |
| Generation.KwargsRoundTrip | generate_patches.py:64 | for `_`-free keys and values, splitting the rendered kwargs at `_` gives back each `k=v` in insertion order |
| Generation.OutputName | generate_patches.py:62-67 | the name exists iff the path has at least three `_` fields (otherwise `IndexError`), and it has the form `candidates_...jsonl.gz` |
| Generation.OutputNameFields | generate_patches.py:62-67 | for a path of `_`-free fields, the name contains the second field as the benchmark and the third field up to its first `.` as the strategy |
| Generation.GenerationStatus | generate_patches.py:17-59 | in any completion order, collecting the chunks fails iff the lookup fails or the strategy raises for some sample; a failed lookup is the error that comes out, with or without samples, and otherwise the error is what the strategy raised for one of them |
| Generation.EntryPoint | generate_patches.py:30-68 | a non-positive worker count raises `ValueError`; otherwise it succeeds iff the lookup succeeds, the strategy raises for no sample and the output name can be built; a failed lookup raises its error even with no samples, a strategy exception propagates, and a success returns that name |
| Generation.EmptyRunStillLooksUp | generate_patches.py:17-59 | with no samples and any positive worker count, a failing lookup still makes the run raise its error |
| Generation.EntryPointPermutes | generate_patches.py:42-59 | in any completion order, the results are the input samples with their generations, each exactly once |

## Left out

- File input and output are not modelled: reading and writing JSONL/gzip, the JSON statistics files, the files `export_patches` writes, `print`, `tqdm` and `logging`. Samples come in as values and results are returned.
- Thread pools and `as_completed` have no threads here. The completion order is a parameter (`picks`), and every property holds for every order.
- The evaluation strategy registry and the result of the generation strategy lookup are parameters (`evaluate`, `lookup`). What a model or an evaluation strategy computes is outside this repository's core.
- Generation.GenerateCandidate: every worker's `get_generation(model_name, **kwargs)` call is given the same outcome (`lookup`), since all are made with the same arguments. A lookup that fails in one worker only, such as a resource failure while loading a model, is not modelled.
- `unidiff.PatchSet` parsing is not modelled; the parsed `Diffs.Patch` is an input.
- Evaluation.EntryPoint: does not model the parse of the samples file name (evaluate_patches.py:224-226), the benchmark lookup and its `ValueError` (227-230), or the `correctness` flag. It takes the benchmark's identifier-to-bug map as input and always runs the correctness stage.
- `export_patches` writes unified diffs (`difflib`), the prompt and the target diff. Only the category and index of each diff file are modelled, in `Evaluation.ExportPlan`.
- The checkouts, AST loading and temporary directories of `cloze_prompt` (zero_shot_cloze.py:167-185) are not modelled. Both versions of the code are inputs to `Cloze.ClozeFromCode`.
- Backoff.RetryFrom: records the nominal one-second interval as each wait, not the randomised (jittered) sleep the `backoff` library actually takes.
- The tools' own behaviour (`mvn`, the benchmark binaries, `cp`) is an abstract outcome. For QuixBugs, `cd`, `mkdir` and removing the old workspace are assumed to succeed.
- Process output is taken as a string; UTF-8 decoding is not modelled.
- QuixBugs.CheckoutContents: stated only for identifiers other than `Node` and `WeightedEdge`. For those two, the program's copy and the helper's copy write the same file.
- QuixBugs.CheckoutWithContents: likewise, and so is QuixBugs.CheckoutFixedOnlyChangesProgram.
- QuixBugs.SourceCopiesDistinct: likewise stated only for identifiers other than `Node` and `WeightedEdge`.
- The BugsInPy benchmark and the Mistral cost estimation are not part of this model.

## Findings

| source | as written | input that shows it | evidently intended | confidence | as-written member | corrected member |
|---|---|---|---|---|---|---|
| elleelleaime/core/benchmarks/quixbugs/quixbugsbug.py:27-34 | each checkout command joins its `cp` steps with `;`, so the shell's status (and therefore `check=True`) reflects only the last copy | a benchmark without `java_programs/gcd.java` but with the helpers, the test and pom.xml: the checkout of `gcd` returns True with no program in the workspace | every failed copy makes the checkout raise (steps joined with `&&`), so a returned checkout holds all six files | medium: not executed, derived from shell semantics | QuixBugs.CheckoutAsWritten, QuixBugs.AsWrittenCheckoutMissesProgram | QuixBugs.Checkout |
