/** The evaluation side of the pipeline: the per-candidate verdicts, the
    statistics fold, the export category of each candidate, and the
    orchestrator's fail-fast resolution and order-free collection of
    results. */
module Evaluation {
  import opened Outcomes
  import opened Diffs
  import opened Folds
  import opened Scheduling

  /** One entry of `sample["evaluation"]`: the candidate text (absent when
      the model produced none) and its three verdicts. */
  datatype CandidateEvaluation = CandidateEvaluation(
    generation: Option<string>,
    compile: bool,
    test: bool,
    exactMatch: bool)

  /** A sample record as the pipeline passes it between stages. */
  datatype Sample = Sample(
    identifier: string,
    prompt: Option<string>,
    groundTruth: Patch,
    generation: Option<seq<Option<string>>>,
    evaluation: seq<CandidateEvaluation>)

  function ExactMatch(e: CandidateEvaluation): bool {
    e.exactMatch
  }

  function Compilable(e: CandidateEvaluation): bool {
    e.compile
  }

  /** A plausible candidate compiles and passes the tests, so it is in
      particular compilable. */
  function Plausible(e: CandidateEvaluation): (r: bool)
    ensures r ==> Compilable(e)
    ensures r ==> e.test
  {
    e.compile && e.test
  }

  function Generated(e: CandidateEvaluation): bool {
    e.generation.Some?
  }

  /** `sum([f(c) for c in es])` for a boolean `f`. */
  function Count(es: seq<CandidateEvaluation>, f: CandidateEvaluation -> bool): nat {
    |Filter(es, f)|
  }

  /** `any(f(c) for c in es)`. */
  predicate Any(es: seq<CandidateEvaluation>, f: CandidateEvaluation -> bool) {
    exists k :: 0 <= k < |es| && f(es[k])
  }

  function Identifier(s: Sample): string {
    s.identifier
  }

  function HasPrompt(s: Sample): bool {
    s.prompt.Some?
  }

  /** The guard of the per-sample patch totals: a non-empty generation and at
      least one candidate whose generation is not absent. */
  function HasCandidates(s: Sample): bool {
    && s.generation.Some?
    && |s.generation.value| > 0
    && Any(s.evaluation, Generated)
  }

  function SolvedExactly(s: Sample): bool {
    HasCandidates(s) && Any(s.evaluation, ExactMatch)
  }

  function SolvedPlausibly(s: Sample): bool {
    HasCandidates(s) && Any(s.evaluation, Plausible)
  }

  function SolvedCompilably(s: Sample): bool {
    HasCandidates(s) && Any(s.evaluation, Compilable)
  }

  /** The patch-level contribution of one sample to each total. */
  function Patches(s: Sample): nat {
    if HasCandidates(s) then Count(s.evaluation, Generated) else 0
  }

  function CompilablePatches(s: Sample): nat {
    if HasCandidates(s) then Count(s.evaluation, Compilable) else 0
  }

  function PlausiblePatches(s: Sample): nat {
    if HasCandidates(s) then Count(s.evaluation, Plausible) else 0
  }

  function ExactMatchPatches(s: Sample): nat {
    if HasCandidates(s) then Count(s.evaluation, ExactMatch) else 0
  }

  /** The dictionary `compute_statistics` returns. */
  datatype Statistics = Statistics(
    numBugs: nat,
    numBugsWithPrompt: nat,
    numBugsWithCandidates: nat,
    numBugsWithExactMatchCandidates: nat,
    numBugsWithPlausibleCandidates: nat,
    numBugsWithCompilableCandidates: nat,
    numPatches: nat,
    numCompilablePatches: nat,
    numPlausiblePatches: nat,
    numExactMatchPatches: nat,
    bugsWithExactMatchCandidates: seq<string>,
    bugsWithPlausibleCandidates: seq<string>,
    bugsWithCompilableCandidates: seq<string>)

  const NoStatistics := Statistics(0, 0, 0, 0, 0, 0, 0, 0, 0, 0, [], [], [])

  /** One iteration of the loop over the samples. */
  function Tally(st: Statistics, s: Sample): Statistics {
    var st := st.(numBugs := st.numBugs + 1);
    var st := if s.prompt.Some? then st.(numBugsWithPrompt := st.numBugsWithPrompt + 1) else st;
    if !HasCandidates(s) then st
    else
      var es := s.evaluation;
      var st := st.(
        numBugsWithCandidates := st.numBugsWithCandidates + 1,
        numPatches := st.numPatches + Count(es, Generated),
        numCompilablePatches := st.numCompilablePatches + Count(es, Compilable),
        numPlausiblePatches := st.numPlausiblePatches + Count(es, Plausible),
        numExactMatchPatches := st.numExactMatchPatches + Count(es, ExactMatch));
      var st := if Any(es, ExactMatch) then st.(
        numBugsWithExactMatchCandidates := st.numBugsWithExactMatchCandidates + 1,
        bugsWithExactMatchCandidates := st.bugsWithExactMatchCandidates + [s.identifier]) else st;
      var st := if Any(es, Compilable) then st.(
        numBugsWithCompilableCandidates := st.numBugsWithCompilableCandidates + 1,
        bugsWithCompilableCandidates := st.bugsWithCompilableCandidates + [s.identifier]) else st;
      if Any(es, Plausible) then st.(
        numBugsWithPlausibleCandidates := st.numBugsWithPlausibleCandidates + 1,
        bugsWithPlausibleCandidates := st.bugsWithPlausibleCandidates + [s.identifier]) else st
  }

  /** What one iteration adds: each counter grows by the sample's own
      contribution and each list gains the identifier exactly when the sample
      qualifies. */
  lemma TallyStep(st: Statistics, s: Sample)
    ensures var t := Tally(st, s);
      && t.numBugs == st.numBugs + 1
      && t.numBugsWithPrompt == st.numBugsWithPrompt + (if HasPrompt(s) then 1 else 0)
      && t.numBugsWithCandidates == st.numBugsWithCandidates + (if HasCandidates(s) then 1 else 0)
      && t.numBugsWithExactMatchCandidates == st.numBugsWithExactMatchCandidates + (if SolvedExactly(s) then 1 else 0)
      && t.numBugsWithPlausibleCandidates == st.numBugsWithPlausibleCandidates + (if SolvedPlausibly(s) then 1 else 0)
      && t.numBugsWithCompilableCandidates == st.numBugsWithCompilableCandidates + (if SolvedCompilably(s) then 1 else 0)
      && t.numPatches == st.numPatches + Patches(s)
      && t.numCompilablePatches == st.numCompilablePatches + CompilablePatches(s)
      && t.numPlausiblePatches == st.numPlausiblePatches + PlausiblePatches(s)
      && t.numExactMatchPatches == st.numExactMatchPatches + ExactMatchPatches(s)
      && t.bugsWithExactMatchCandidates == st.bugsWithExactMatchCandidates + (if SolvedExactly(s) then [s.identifier] else [])
      && t.bugsWithPlausibleCandidates == st.bugsWithPlausibleCandidates + (if SolvedPlausibly(s) then [s.identifier] else [])
      && t.bugsWithCompilableCandidates == st.bugsWithCompilableCandidates + (if SolvedCompilably(s) then [s.identifier] else [])
  {
    if HasCandidates(s) {
      var es := s.evaluation;
      assert SolvedExactly(s) == Any(es, ExactMatch);
      assert SolvedPlausibly(s) == Any(es, Plausible);
      assert SolvedCompilably(s) == Any(es, Compilable);
    }
  }

  /** `compute_statistics`: a left fold of `Tally` over the samples. */
  function ComputeStatistics(samples: seq<Sample>): (r: Statistics)
    ensures r.numBugs == |samples|
  {
    if |samples| == 0 then NoStatistics
    else Tally(ComputeStatistics(samples[..|samples| - 1]), samples[|samples| - 1])
  }

  /** Every bug counter is the size of a filter of the samples. */
  lemma {:induction false} StatisticsBugCounts(samples: seq<Sample>)
    ensures var r := ComputeStatistics(samples);
      && r.numBugsWithPrompt == |Filter(samples, HasPrompt)|
      && r.numBugsWithCandidates == |Filter(samples, HasCandidates)|
      && r.numBugsWithExactMatchCandidates == |Filter(samples, SolvedExactly)|
      && r.numBugsWithPlausibleCandidates == |Filter(samples, SolvedPlausibly)|
      && r.numBugsWithCompilableCandidates == |Filter(samples, SolvedCompilably)|
  {
    if |samples| > 0 {
      StatisticsBugCounts(samples[..|samples| - 1]);
      TallyStep(ComputeStatistics(samples[..|samples| - 1]), samples[|samples| - 1]);
    }
  }

  /** Every patch counter is the sum of the samples' contributions. */
  lemma {:induction false} StatisticsPatchSums(samples: seq<Sample>)
    ensures var r := ComputeStatistics(samples);
      && r.numPatches == SumOf(samples, Patches)
      && r.numCompilablePatches == SumOf(samples, CompilablePatches)
      && r.numPlausiblePatches == SumOf(samples, PlausiblePatches)
      && r.numExactMatchPatches == SumOf(samples, ExactMatchPatches)
  {
    if |samples| > 0 {
      StatisticsPatchSums(samples[..|samples| - 1]);
      TallyStep(ComputeStatistics(samples[..|samples| - 1]), samples[|samples| - 1]);
    }
  }

  lemma MapFilterStep(init: seq<Sample>, s: Sample, keep: Sample -> bool)
    ensures MapSeq(Filter(init + [s], keep), Identifier)
      == MapSeq(Filter(init, keep), Identifier) + (if keep(s) then [s.identifier] else [])
  {
    assert (init + [s])[..|init|] == init;
    MapAppend(Filter(init, keep), if keep(s) then [s] else [], Identifier);
  }

  /** Each identifier list holds exactly the qualifying samples' identifiers,
      in input order. */
  lemma {:induction false} StatisticsLists(samples: seq<Sample>)
    ensures var r := ComputeStatistics(samples);
      && r.bugsWithExactMatchCandidates == MapSeq(Filter(samples, SolvedExactly), Identifier)
      && r.bugsWithPlausibleCandidates == MapSeq(Filter(samples, SolvedPlausibly), Identifier)
      && r.bugsWithCompilableCandidates == MapSeq(Filter(samples, SolvedCompilably), Identifier)
  {
    if |samples| > 0 {
      var init, s := samples[..|samples| - 1], samples[|samples| - 1];
      var st := ComputeStatistics(init);
      StatisticsLists(init);
      TallyStep(st, s);
      assert ComputeStatistics(samples) == Tally(st, s);
      assert samples == init + [s];
      MapFilterStep(init, s, SolvedExactly);
      MapFilterStep(init, s, SolvedPlausibly);
      MapFilterStep(init, s, SolvedCompilably);
    }
  }

  lemma PlausibleSolvedIsCompilable(s: Sample)
    ensures SolvedPlausibly(s) ==> SolvedCompilably(s)
  {
    if SolvedPlausibly(s) {
      var k :| 0 <= k < |s.evaluation| && Plausible(s.evaluation[k]);
      assert Compilable(s.evaluation[k]);
    }
  }

  lemma {:induction false} PlausiblePatchesBound(samples: seq<Sample>)
    ensures SumOf(samples, PlausiblePatches) <= SumOf(samples, CompilablePatches)
  {
    if |samples| > 0 {
      var s := samples[|samples| - 1];
      PlausiblePatchesBound(samples[..|samples| - 1]);
      FilterMonotone(s.evaluation, Plausible, Compilable);
    }
  }

  /** The ordering of the counters: plausible bugs are among the compilable
      ones, which are among the bugs with candidates; plausible patches are
      among the compilable patches. */
  lemma StatisticsBounds(samples: seq<Sample>)
    ensures var r := ComputeStatistics(samples);
      && r.numBugsWithPlausibleCandidates <= r.numBugsWithCompilableCandidates
      && r.numBugsWithCompilableCandidates <= r.numBugsWithCandidates
      && r.numBugsWithExactMatchCandidates <= r.numBugsWithCandidates
      && r.numBugsWithCandidates <= r.numBugs
      && r.numPlausiblePatches <= r.numCompilablePatches
  {
    forall k | 0 <= k < |samples| && SolvedPlausibly(samples[k])
      ensures SolvedCompilably(samples[k])
    {
      PlausibleSolvedIsCompilable(samples[k]);
    }
    StatisticsBugCounts(samples);
    StatisticsPatchSums(samples);
    FilterMonotone(samples, SolvedPlausibly, SolvedCompilably);
    FilterMonotone(samples, SolvedCompilably, HasCandidates);
    FilterMonotone(samples, SolvedExactly, HasCandidates);
    PlausiblePatchesBound(samples);
  }

  /** The invariant of the evaluation records: a candidate whose generation
      is absent gets all-false verdicts. */
  predicate WellFormed(s: Sample) {
    forall k :: 0 <= k < |s.evaluation| && s.evaluation[k].generation.None? ==>
      !s.evaluation[k].compile && !s.evaluation[k].test && !s.evaluation[k].exactMatch
  }

  lemma {:induction false} WellFormedPatchSums(samples: seq<Sample>)
    requires forall k :: 0 <= k < |samples| ==> WellFormed(samples[k])
    ensures SumOf(samples, CompilablePatches) <= SumOf(samples, Patches)
    ensures SumOf(samples, ExactMatchPatches) <= SumOf(samples, Patches)
  {
    if |samples| > 0 {
      var s := samples[|samples| - 1];
      WellFormedPatchSums(samples[..|samples| - 1]);
      FilterMonotone(s.evaluation, Compilable, Generated);
      FilterMonotone(s.evaluation, ExactMatch, Generated);
    }
  }

  /** On well-formed records every compilable or exact-match patch is one
      of the counted patches. */
  lemma WellFormedPatchBounds(samples: seq<Sample>)
    requires forall k :: 0 <= k < |samples| ==> WellFormed(samples[k])
    ensures var r := ComputeStatistics(samples);
      r.numPlausiblePatches <= r.numCompilablePatches <= r.numPatches && r.numExactMatchPatches <= r.numPatches
  {
    WellFormedPatchSums(samples);
    PlausiblePatchesBound(samples);
    StatisticsPatchSums(samples);
  }

  /** Two statistics records that agree on every counter and hold the same
      identifiers, possibly listed in another order. */
  predicate SameCounts(a: Statistics, b: Statistics) {
    && a.numBugs == b.numBugs
    && a.numBugsWithPrompt == b.numBugsWithPrompt
    && a.numBugsWithCandidates == b.numBugsWithCandidates
    && a.numBugsWithExactMatchCandidates == b.numBugsWithExactMatchCandidates
    && a.numBugsWithPlausibleCandidates == b.numBugsWithPlausibleCandidates
    && a.numBugsWithCompilableCandidates == b.numBugsWithCompilableCandidates
    && a.numPatches == b.numPatches
    && a.numCompilablePatches == b.numCompilablePatches
    && a.numPlausiblePatches == b.numPlausiblePatches
    && a.numExactMatchPatches == b.numExactMatchPatches
    && multiset(a.bugsWithExactMatchCandidates) == multiset(b.bugsWithExactMatchCandidates)
    && multiset(a.bugsWithPlausibleCandidates) == multiset(b.bugsWithPlausibleCandidates)
    && multiset(a.bugsWithCompilableCandidates) == multiset(b.bugsWithCompilableCandidates)
  }

  lemma FilterCountPermutes(a: seq<Sample>, b: seq<Sample>, keep: Sample -> bool)
    requires multiset(a) == multiset(b)
    ensures |Filter(a, keep)| == |Filter(b, keep)|
    ensures multiset(MapSeq(Filter(a, keep), Identifier)) == multiset(MapSeq(Filter(b, keep), Identifier))
  {
    FilterPermutes(a, b, keep);
    assert |Filter(a, keep)| == |multiset(Filter(a, keep))|;
    assert |Filter(b, keep)| == |multiset(Filter(b, keep))|;
    MapPermutes(Filter(a, keep), Filter(b, keep), Identifier);
  }

  /** Rearranging the samples changes no counter and only the order of the
      identifier lists. */
  lemma StatisticsOrderIndependent(a: seq<Sample>, b: seq<Sample>)
    requires multiset(a) == multiset(b)
    ensures SameCounts(ComputeStatistics(a), ComputeStatistics(b))
  {
    assert |a| == |multiset(a)| == |b|;
    StatisticsBugCounts(a);
    StatisticsBugCounts(b);
    StatisticsPatchSums(a);
    StatisticsPatchSums(b);
    StatisticsLists(a);
    StatisticsLists(b);
    FilterCountPermutes(a, b, HasPrompt);
    FilterCountPermutes(a, b, HasCandidates);
    FilterCountPermutes(a, b, SolvedExactly);
    FilterCountPermutes(a, b, SolvedPlausibly);
    FilterCountPermutes(a, b, SolvedCompilably);
    SumPermutes(a, b, Patches);
    SumPermutes(a, b, CompilablePatches);
    SumPermutes(a, b, PlausiblePatches);
    SumPermutes(a, b, ExactMatchPatches);
  }

  function IsSingleChunkSample(s: Sample): bool {
    SingleChunk(s.groundTruth)
  }

  function IsSingleHunkSample(s: Sample): bool {
    IsSingleHunk(s.groundTruth)
  }

  /** The three statistics files: single-chunk samples, single-hunk samples
      and all samples. */
  datatype Report = Report(singleChunk: Statistics, singleHunk: Statistics, all: Statistics)

  /** The partitions are nested: every single-chunk sample is a single-hunk
      sample, so the bug counts can only grow from the first file to the
      last. */
  function StatisticsReport(samples: seq<Sample>): (r: Report)
    ensures r.singleChunk.numBugs <= r.singleHunk.numBugs <= r.all.numBugs
    ensures r.all.numBugs == |samples|
  {
    FilterMonotone(samples, IsSingleChunkSample, IsSingleHunkSample);
    Report(
      ComputeStatistics(Filter(samples, IsSingleChunkSample)),
      ComputeStatistics(Filter(samples, IsSingleHunkSample)),
      ComputeStatistics(samples))
  }

  lemma ReportOrderIndependent(a: seq<Sample>, b: seq<Sample>)
    requires multiset(a) == multiset(b)
    ensures var ra, rb := StatisticsReport(a), StatisticsReport(b);
      && SameCounts(ra.singleChunk, rb.singleChunk)
      && SameCounts(ra.singleHunk, rb.singleHunk)
      && SameCounts(ra.all, rb.all)
  {
    FilterPermutes(a, b, IsSingleChunkSample);
    FilterPermutes(a, b, IsSingleHunkSample);
    StatisticsOrderIndependent(Filter(a, IsSingleChunkSample), Filter(b, IsSingleChunkSample));
    StatisticsOrderIndependent(Filter(a, IsSingleHunkSample), Filter(b, IsSingleHunkSample));
    StatisticsOrderIndependent(a, b);
  }

  /** The `patches/<id>/<sub_dir>` directory a candidate is exported to. */
  datatype Category = ExactMatchDir | PlausibleDir | CompilableDir | NonCompilableDir {
    function Name(): string {
      match this
      case ExactMatchDir => "exact_match"
      case PlausibleDir => "plausible"
      case CompilableDir => "compilable"
      case NonCompilableDir => "non_compilable"
    }
  }

  /** The category chosen by precedence: exact match, then plausible, then
      compilable, else non-compilable; candidates without a generation are
      not exported. */
  function ExportCategory(e: CandidateEvaluation): (r: Option<Category>)
    ensures r.None? <==> !Generated(e)
    ensures r == Some(ExactMatchDir) <==> Generated(e) && ExactMatch(e)
    ensures r == Some(PlausibleDir) <==> Generated(e) && !ExactMatch(e) && Plausible(e)
    ensures r == Some(CompilableDir) ==> Compilable(e) && !Plausible(e) && !ExactMatch(e)
    ensures r == Some(NonCompilableDir) <==> Generated(e) && !ExactMatch(e) && !Compilable(e)
  {
    if e.generation.None? then None
    else if ExactMatch(e) then Some(ExactMatchDir)
    else if Plausible(e) then Some(PlausibleDir)
    else if Compilable(e) then Some(CompilableDir)
    else Some(NonCompilableDir)
  }

  /** The `(i, sub_dir)` of each `{i}.diff` written for the first `n`
      candidates. */
  function PlanUpTo(es: seq<CandidateEvaluation>, n: nat): (r: seq<(nat, Category)>)
    requires n <= |es|
    ensures |r| == Count(es[..n], Generated)
    ensures forall k :: 0 <= k < |r| ==> r[k].0 < n && ExportCategory(es[r[k].0]) == Some(r[k].1)
  {
    if n == 0 then []
    else
      assert es[..n][..n - 1] == es[..n - 1];
      var c := ExportCategory(es[n - 1]);
      PlanUpTo(es, n - 1) + (if c.Some? then [(n - 1, c.value)] else [])
  }

  /** The indices in the plan strictly increase, so no `{i}.diff` is
      written twice. */
  predicate IndicesIncrease(plan: seq<(nat, Category)>) {
    forall j, k :: 0 <= j < k < |plan| ==> plan[j].0 < plan[k].0
  }

  /** Candidate `i` has an entry in the plan. */
  predicate Planned(plan: seq<(nat, Category)>, i: nat) {
    exists k :: 0 <= k < |plan| && plan[k].0 == i
  }

  /** Appending entries for a later index keeps the indices increasing. */
  lemma AppendIncreases(prev: seq<(nat, Category)>, tail: seq<(nat, Category)>, m: nat)
    requires IndicesIncrease(prev) && |tail| <= 1
    requires forall k :: 0 <= k < |prev| ==> prev[k].0 < m
    requires forall k :: 0 <= k < |tail| ==> tail[k].0 == m
    ensures IndicesIncrease(prev + tail)
  {
  }

  /** Appending keeps every planned index planned. */
  lemma AppendKeepsPlanned(prev: seq<(nat, Category)>, tail: seq<(nat, Category)>, i: nat)
    requires Planned(prev, i)
    ensures Planned(prev + tail, i)
  {
    var k :| 0 <= k < |prev| && prev[k].0 == i;
    assert (prev + tail)[k] == prev[k];
  }

  /** The plan lists the generated candidates' indices in increasing
      order. */
  lemma {:induction false} PlanIncreases(es: seq<CandidateEvaluation>, n: nat)
    requires n <= |es|
    ensures IndicesIncrease(PlanUpTo(es, n))
  {
    if n > 0 {
      var prev := PlanUpTo(es, n - 1);
      var c := ExportCategory(es[n - 1]);
      var tail := if c.Some? then [(n - 1, c.value)] else [];
      assert PlanUpTo(es, n) == prev + tail;
      PlanIncreases(es, n - 1);
      AppendIncreases(prev, tail, n - 1);
    }
  }

  /** No generated candidate is left out of the plan. */
  lemma {:induction false} PlanCovers(es: seq<CandidateEvaluation>, n: nat)
    requires n <= |es|
    ensures forall i :: 0 <= i < n && Generated(es[i]) ==> Planned(PlanUpTo(es, n), i)
  {
    if n > 0 {
      var prev := PlanUpTo(es, n - 1);
      var c := ExportCategory(es[n - 1]);
      var tail := if c.Some? then [(n - 1, c.value)] else [];
      assert PlanUpTo(es, n) == prev + tail;
      forall i | 0 <= i < n && Generated(es[i]) ensures Planned(prev + tail, i) {
        if i < n - 1 {
          PlanCovers(es, n - 1);
          AppendKeepsPlanned(prev, tail, i);
        } else {
          assert (prev + tail)[|prev|].0 == i;
        }
      }
    }
  }

  /** The diff files `export_patches` writes for one sample: one per candidate
      with a generation, and none unless the sample has candidates at all. */
  function ExportPlan(s: Sample): (r: seq<(nat, Category)>)
    ensures |r| == Patches(s)
    ensures forall k :: 0 <= k < |r| ==> r[k].0 < |s.evaluation| && ExportCategory(s.evaluation[r[k].0]) == Some(r[k].1)
    ensures IndicesIncrease(r)
    ensures HasCandidates(s) ==> forall i :: 0 <= i < |s.evaluation| && Generated(s.evaluation[i]) ==> Planned(r, i)
  {
    assert s.evaluation[..|s.evaluation|] == s.evaluation;
    PlanIncreases(s.evaluation, |s.evaluation|);
    PlanCovers(s.evaluation, |s.evaluation|);
    if HasCandidates(s) then PlanUpTo(s.evaluation, |s.evaluation|) else []
  }

  function ExportedFiles(s: Sample): nat {
    |ExportPlan(s)|
  }

  /** The number of exported diff files equals `num_patches`. */
  lemma ExportMatchesStatistics(samples: seq<Sample>)
    ensures SumOf(samples, ExportedFiles) == ComputeStatistics(samples).numPatches
  {
    SumCongruent(samples, ExportedFiles, Patches);
    StatisticsPatchSums(samples);
  }

  /** An evaluation strategy: for a bug and a sample, the records of its
      candidates, or the exception the strategy raised. */
  type Evaluator<!B> = (B, Sample) -> Result<seq<CandidateEvaluation>>

  /** `evaluate_candidate`: the sample with the strategy's records attached
      and nothing else changed, or what the strategy raised. */
  function EvaluateCandidate<B>(bug: B, sample: Sample, evaluate: Evaluator<B>): (r: Result<Sample>)
    ensures r.Ok? <==> evaluate(bug, sample).Ok?
    ensures r.Err? ==> r.error == evaluate(bug, sample).error
    ensures r.Ok? ==> r.value.evaluation == evaluate(bug, sample).value
    ensures r.Ok? ==> r.value.(evaluation := sample.evaluation) == sample
  {
    var records :- evaluate(bug, sample);
    Ok(sample.(evaluation := records))
  }

  /** Position of the first sample at or after `from` whose identifier the
      benchmark does not know. */
  function FirstUnknown<B>(samples: seq<Sample>, catalog: map<string, B>, from: nat): (r: Option<nat>)
    requires from <= |samples|
    ensures r.Some? ==> from <= r.value < |samples| && samples[r.value].identifier !in catalog
    ensures r.Some? ==> forall j :: from <= j < r.value ==> samples[j].identifier in catalog
    ensures r.None? ==> forall j :: from <= j < |samples| ==> samples[j].identifier in catalog
    decreases |samples| - from
  {
    if from == |samples| then None
    else if samples[from].identifier !in catalog then Some(from)
    else FirstUnknown(samples, catalog, from + 1)
  }

  /** The benchmark knows every sample's bug. */
  predicate AllKnown<B>(samples: seq<Sample>, catalog: map<string, B>) {
    forall j :: 0 <= j < |samples| ==> samples[j].identifier in catalog
  }

  /** The strategy returns records for every sample. */
  predicate AllEvaluate<B>(samples: seq<Sample>, catalog: map<string, B>, evaluate: Evaluator<B>)
    requires AllKnown(samples, catalog)
  {
    forall j :: 0 <= j < |samples| ==> evaluate(catalog[samples[j].identifier], samples[j]).Ok?
  }

  /** The submitted tasks, in submission order. */
  function Submitted<B>(samples: seq<Sample>, catalog: map<string, B>, evaluate: Evaluator<B>): (r: seq<Result<Sample>>)
    requires AllKnown(samples, catalog)
    ensures |r| == |samples|
    ensures forall j :: 0 <= j < |samples| ==> r[j] == EvaluateCandidate(catalog[samples[j].identifier], samples[j], evaluate)
  {
    seq(|samples|, j requires 0 <= j < |samples| => EvaluateCandidate(catalog[samples[j].identifier], samples[j], evaluate))
  }

  /** The samples with their records, when every evaluation returns. */
  function Evaluated<B>(samples: seq<Sample>, catalog: map<string, B>, evaluate: Evaluator<B>): (r: seq<Sample>)
    requires AllKnown(samples, catalog) && AllEvaluate(samples, catalog, evaluate)
    ensures |r| == |samples|
    ensures forall j :: 0 <= j < |samples| ==>
      r[j] == samples[j].(evaluation := evaluate(catalog[samples[j].identifier], samples[j]).value)
  {
    seq(|samples|, j requires 0 <= j < |samples| =>
      samples[j].(evaluation := evaluate(catalog[samples[j].identifier], samples[j]).value))
  }

  /** The correctness part of `entry_point`: a non-positive worker count
      makes the executor raise; otherwise the first unknown identifier aborts
      the run with its name; otherwise the results are collected in the
      completion order `picks`, and `future.result()` re-raises what a task
      raised. */
  function EntryPoint<B>(samples: seq<Sample>, catalog: map<string, B>, workers: int,
                         evaluate: Evaluator<B>, picks: seq<nat>): (r: Result<seq<Sample>>)
    ensures workers <= 0 ==> r == Err(BadWorkers)
    ensures workers > 0 && !AllKnown(samples, catalog) ==> r.Err? && exists j :: (0 <= j < |samples|
      && samples[j].identifier !in catalog
      && (forall i :: 0 <= i < j ==> samples[i].identifier in catalog)
      && r.error == ValueError("Unknown bug " + samples[j].identifier))
    ensures workers > 0 && AllKnown(samples, catalog) ==> (r.Ok? <==> AllEvaluate(samples, catalog, evaluate))
    ensures workers > 0 && AllKnown(samples, catalog) && r.Err? ==> exists j :: (0 <= j < |samples|
      && evaluate(catalog[samples[j].identifier], samples[j]) == Err(r.error))
    ensures r.Ok? ==> (AllKnown(samples, catalog) && AllEvaluate(samples, catalog, evaluate)
      && multiset(r.value) == multiset(Evaluated(samples, catalog, evaluate)))
  {
    if workers <= 0 then Err(BadWorkers)
    else match FirstUnknown(samples, catalog, 0)
    case Some(j) => Err(ValueError("Unknown bug " + samples[j].identifier))
    case None =>
      var done := Submitted(samples, catalog, evaluate);
      CollectedEvaluations(samples, catalog, evaluate, picks);
      Collect(Drain(done, picks))
  }

  /** Whatever order the tasks complete in, collecting them fails exactly
      when the strategy raises for some sample, and then with what it
      raised for one of them; otherwise every evaluated sample comes back
      exactly once. */
  lemma CollectedEvaluations<B>(samples: seq<Sample>, catalog: map<string, B>, evaluate: Evaluator<B>, picks: seq<nat>)
    requires AllKnown(samples, catalog)
    ensures var c := Collect(Drain(Submitted(samples, catalog, evaluate), picks));
      && (c.Ok? <==> AllEvaluate(samples, catalog, evaluate))
      && (c.Err? ==> exists j :: 0 <= j < |samples| && evaluate(catalog[samples[j].identifier], samples[j]) == Err(c.error))
      && (c.Ok? ==> multiset(c.value) == multiset(Evaluated(samples, catalog, evaluate)))
  {
    var done := Submitted(samples, catalog, evaluate);
    var c := Collect(Drain(done, picks));
    DrainCollectStatus(done, picks);
    if c.Err? {
      var j :| 0 <= j < |done| && done[j] == Err(c.error);
      assert evaluate(catalog[samples[j].identifier], samples[j]) == Err(c.error);
    }
    if AllEvaluate(samples, catalog, evaluate) {
      var vs := Evaluated(samples, catalog, evaluate);
      DrainCollectValues(done, vs, picks);
      DrainPermutes(vs, picks);
    }
  }

  /** However the tasks complete, the three statistics files agree on every
      counter. */
  lemma CompletionOrderIrrelevant<B>(samples: seq<Sample>, catalog: map<string, B>, workers: int,
                                     evaluate: Evaluator<B>, picks1: seq<nat>, picks2: seq<nat>)
    requires EntryPoint(samples, catalog, workers, evaluate, picks1).Ok?
    ensures EntryPoint(samples, catalog, workers, evaluate, picks2).Ok?
    ensures var r1, r2 := EntryPoint(samples, catalog, workers, evaluate, picks1).value, EntryPoint(samples, catalog, workers, evaluate, picks2).value;
      && SameCounts(StatisticsReport(r1).all, StatisticsReport(r2).all)
      && SameCounts(StatisticsReport(r1).singleHunk, StatisticsReport(r2).singleHunk)
      && SameCounts(StatisticsReport(r1).singleChunk, StatisticsReport(r2).singleChunk)
  {
    var r1, r2 := EntryPoint(samples, catalog, workers, evaluate, picks1).value, EntryPoint(samples, catalog, workers, evaluate, picks2).value;
    ReportOrderIndependent(r1, r2);
  }
}
