/** Candidate generation: the samples are dealt round-robin into one chunk
    per worker, each worker fills in the `generation` of its chunk, and the
    chunks are concatenated in the order the workers finish. */
module Generation {
  import opened Outcomes
  import opened Strings
  import opened Folds
  import opened Scheduling
  import opened Evaluation

  lemma MulAtLeast(d: int, n: nat)
    requires d >= 1
    ensures d * n >= n
  {
    if d > 1 {
      MulAtLeast(d - 1, n);
      assert d * n == (d - 1) * n + n;
    }
  }

  /** Quotient and remainder are determined by `j == a * n + b`, `b < n`. */
  lemma DivModUnique(j: nat, n: nat, a: nat, b: nat)
    requires n > 0 && b < n && j == a * n + b
    ensures j / n == a && j % n == b
  {
    var q, r := j / n, j % n;
    assert j == q * n + r;
    if a > q {
      MulAtLeast(a - q, n);
    } else if q > a {
      MulAtLeast(q - a, n);
    }
  }

  lemma DivModStep(j: nat, n: nat)
    requires n > 0 && j >= n
    ensures (j - n) % n == j % n && (j - n) / n == j / n - 1
  {
    var q, r := (j - n) / n, (j - n) % n;
    assert j == (q + 1) * n + r;
    DivModUnique(j, n, q + 1, r);
  }

  /** `s[i::n]`: the elements at `i`, `i + n`, `i + 2n`, ... in order. */
  function Stride<T>(s: seq<T>, i: nat, n: nat): (r: seq<T>)
    requires n > 0
    ensures i >= |s| ==> |r| == 0
    ensures i < |s| ==> 0 < |r| <= |s| - i && r[0] == s[i]
    decreases |s| - i
  {
    if i >= |s| then [] else [s[i]] + Stride(s, i + n, n)
  }

  /** The element at `j` is in the stride starting at `i` when `n` divides
      `j - i`, at position `(j - i) / n`. */
  lemma {:induction false} StrideFrom<T>(s: seq<T>, i: nat, n: nat, j: nat)
    requires n > 0 && i <= j < |s| && (j - i) % n == 0
    ensures (j - i) / n < |Stride(s, i, n)| && Stride(s, i, n)[(j - i) / n] == s[j]
    decreases j - i
  {
    if j - i >= n {
      DivModStep(j - i, n);
      StrideFrom(s, i + n, n, j);
    } else {
      DivModUnique(j - i, n, 0, j - i);
    }
  }

  /** Position `q` of the stride at `i` holds the element at `i + q * n`. */
  lemma {:induction false} StrideAt<T>(s: seq<T>, i: nat, n: nat, q: nat)
    requires n > 0 && q < |Stride(s, i, n)|
    ensures i + q * n < |s| && Stride(s, i, n)[q] == s[i + q * n]
    decreases q
  {
    if q > 0 {
      StrideAt(s, i + n, n, q - 1);
      assert i + n + (q - 1) * n == i + q * n;
    }
  }

  /** One more element at the end joins the stride it falls into. */
  lemma {:induction false} StrideSnoc<T>(s: seq<T>, x: T, i: nat, n: nat)
    requires n > 0
    ensures Stride(s + [x], i, n) == Stride(s, i, n) + (if i <= |s| && (|s| - i) % n == 0 then [x] else [])
    decreases |s| - i
  {
    var t := s + [x];
    if i < |s| {
      StrideSnoc(s, x, i + n, n);
      assert t[i] == s[i];
      if |s| - i >= n {
        DivModStep(|s| - i, n);
      } else {
        DivModUnique(|s| - i, n, 0, |s| - i);
      }
    } else if i == |s| {
      assert Stride(t, i, n) == [x] + Stride(t, i + n, n);
      DivModUnique(0, n, 0, 0);
    }
  }

  /** `[samples[i::n] for i in range(n)]` behind the executor's check of
      `max_workers`. */
  function Chunks<T>(s: seq<T>, n: int): (r: Result<seq<seq<T>>>)
    ensures r.Ok? <==> n > 0
    ensures r.Err? ==> r.error == BadWorkers
    ensures r.Ok? ==> |r.value| == n
  {
    if n <= 0 then Err(BadWorkers)
    else Ok(seq(n, i requires 0 <= i < n => Stride(s, i, n)))
  }

  /** Chunk `i` is the stride starting at `i`. */
  lemma ChunkIsStride<T>(s: seq<T>, n: int, i: nat)
    requires 0 <= i < n
    ensures Chunks(s, n).value[i] == Stride(s, i, n)
  {
  }

  /** Taking away the remainder leaves a multiple of `n`. */
  lemma RemainderOff(j: nat, n: nat)
    requires n > 0
    ensures (j - j % n) % n == 0 && (j - j % n) / n == j / n
  {
    DivModUnique(j - j % n, n, j / n, 0);
  }

  /** Round-robin dealing: the sample at `j` is in chunk `j % n` at
      position `j / n`. */
  lemma SampleInChunk<T>(s: seq<T>, n: int, j: nat)
    requires n > 0 && j < |s|
    ensures var c := Chunks(s, n).value;
      j / n < |c[j % n]| && c[j % n][j / n] == s[j]
  {
    ChunkIsStride(s, n, j % n);
    RemainderOff(j, n);
    StrideFrom(s, j % n, n, j);
  }

  /** Position `q` of chunk `i` holds the sample at `i + q * n`, so each
      chunk keeps the input order. */
  lemma ChunkKeepsOrder<T>(s: seq<T>, n: int, i: nat, q: nat)
    requires i < n && q < |Chunks(s, n).value[i]|
    ensures i + q * n < |s| && Chunks(s, n).value[i][q] == s[i + q * n]
  {
    ChunkIsStride(s, n, i);
    StrideAt(s, i, n, q);
  }

  /** Appending to one part of a list of lists adds exactly that element to
      the concatenation. */
  lemma {:induction false} FlattenUpdate<T>(parts: seq<seq<T>>, p: nat, x: T)
    requires p < |parts|
    ensures multiset(Flatten(parts[p := parts[p] + [x]])) == multiset(Flatten(parts)) + multiset{x}
    decreases |parts|
  {
    var u := parts[p := parts[p] + [x]];
    if p == 0 {
      assert u[1..] == parts[1..];
    } else {
      FlattenUpdate(parts[1..], p - 1, x);
      assert u[1..] == parts[1..][p - 1 := parts[p] + [x]];
    }
  }

  /** `i` is the remainder of `len` modulo `n` exactly when `n` divides
      `len - i`. */
  lemma ModMatch(len: nat, n: nat, i: nat)
    requires i < n
    ensures i == len % n <==> i <= len && (len - i) % n == 0
  {
    if i == len % n {
      DivModUnique(len - i, n, len / n, 0);
    } else if i <= len && (len - i) % n == 0 {
      DivModUnique(len, n, (len - i) / n, i);
    }
  }

  /** One more element at the end joins exactly the stride numbered by
      its position modulo `n`. */
  lemma StrideSnocMod<T>(s: seq<T>, x: T, n: nat, i: nat)
    requires 0 <= i < n
    ensures Stride(s + [x], i, n) == Stride(s, i, n) + (if i == |s| % n then [x] else [])
  {
    StrideSnoc(s, x, i, n);
    ModMatch(|s|, n, i);
  }

  /** The chunks of a list with one more element. */
  lemma ChunksSnoc<T>(s: seq<T>, x: T, n: int)
    requires n > 0
    ensures var c := Chunks(s, n).value;
      Chunks(s + [x], n).value == c[|s| % n := c[|s| % n] + [x]]
  {
    var c, c' := Chunks(s, n).value, Chunks(s + [x], n).value;
    var m := |s| % n;
    forall i | 0 <= i < n
      ensures c'[i] == c[m := c[m] + [x]][i]
    {
      StrideSnocMod(s, x, n, i);
    }
  }

  /** The chunks partition the samples: together they hold every sample
      exactly once. */
  lemma {:induction false} ChunksPartition<T>(s: seq<T>, n: int)
    requires n > 0
    ensures multiset(Flatten(Chunks(s, n).value)) == multiset(s)
    decreases |s|
  {
    var c := Chunks(s, n).value;
    if |s| == 0 {
      assert forall i :: 0 <= i < n ==> c[i] == [];
      FlattenEmpty(c);
    } else {
      var init, x := s[..|s| - 1], s[|s| - 1];
      assert s == init + [x];
      ChunksPartition(init, n);
      ChunksSnoc(init, x, n);
      FlattenUpdate(Chunks(init, n).value, |init| % n, x);
    }
  }

  lemma {:induction false} FlattenEmpty<T>(parts: seq<seq<T>>)
    requires forall i :: 0 <= i < |parts| ==> parts[i] == []
    ensures Flatten(parts) == []
    decreases |parts|
  {
    if |parts| > 0 {
      FlattenEmpty(parts[1..]);
    }
  }

  function Size<T>(c: seq<T>): nat {
    |c|
  }

  lemma {:induction false} FlattenSize<T>(parts: seq<seq<T>>)
    ensures |Flatten(parts)| == SumOf(parts, Size)
    decreases |parts|
  {
    if |parts| > 0 {
      var init := parts[..|parts| - 1];
      FlattenSize(init);
      assert parts == init + [parts[|parts| - 1]];
      FlattenAppend(init, [parts[|parts| - 1]]);
      FlattenSingle(parts[|parts| - 1]);
    }
  }

  /** The chunk sizes add up to the number of samples. */
  lemma ChunkSizesSum<T>(s: seq<T>, n: int)
    requires n > 0
    ensures SumOf(Chunks(s, n).value, Size) == |s|
  {
    ChunksPartition(s, n);
    FlattenSize(Chunks(s, n).value);
    assert |multiset(Flatten(Chunks(s, n).value))| == |multiset(s)|;
  }

  /** A generation strategy: for a prompt, the generated candidates, or the
      exception the model raised. */
  type Generator = Option<string> -> Result<Option<seq<Option<string>>>>

  /** What a sample becomes once the strategy has returned its candidates
      (the sample is left as it was when the strategy raised). */
  function WithGeneration(s: Sample, generate: Generator): Sample {
    match generate(s.prompt)
    case Ok(g) => s.(generation := g)
    case Err(_) => s
  }

  /** One iteration of the loop in `generate_candidate`. */
  function GenerateOne(s: Sample, generate: Generator): (r: Result<Sample>)
    ensures r.Ok? <==> generate(s.prompt).Ok?
    ensures r.Err? ==> r.error == generate(s.prompt).error
    ensures r.Ok? ==> r.value.generation == generate(s.prompt).value && r.value.(generation := s.generation) == s
  {
    var g :- generate(s.prompt);
    Ok(s.(generation := g))
  }

  /** The loop of `generate_candidate`: the samples of the chunk are
      generated in order and the first one whose strategy raises aborts the
      chunk; otherwise every sample gets the generation for its prompt,
      nothing else about it changes and the chunk keeps its order. */
  function GenerateLoop(chunk: seq<Sample>, generate: Generator): (r: Result<seq<Sample>>)
    ensures r.Ok? <==> forall k :: 0 <= k < |chunk| ==> generate(chunk[k].prompt).Ok?
    ensures r.Err? ==> exists k :: (0 <= k < |chunk| && generate(chunk[k].prompt) == Err(r.error)
      && forall i :: 0 <= i < k ==> generate(chunk[i].prompt).Ok?)
    ensures r.Ok? ==> |r.value| == |chunk|
    ensures r.Ok? ==> forall k :: 0 <= k < |chunk| ==> r.value[k].generation == generate(chunk[k].prompt).value
    ensures r.Ok? ==> forall k :: 0 <= k < |chunk| ==> r.value[k].(generation := chunk[k].generation) == chunk[k]
    ensures r.Ok? ==> r.value == MapSeq(chunk, s => WithGeneration(s, generate))
  {
    var steps := MapSeq(chunk, s => GenerateOne(s, generate));
    var w := MapSeq(chunk, s => WithGeneration(s, generate));
    var r := Collect(steps);
    assert forall k :: 0 <= k < |chunk| ==> (steps[k].Ok? <==> generate(chunk[k].prompt).Ok?);
    assert r.Ok? ==> r.value == w by {
      if r.Ok? {
        forall k | 0 <= k < |chunk| ensures r.value[k] == w[k] {
          assert steps[k] == Ok(r.value[k]);
        }
      }
    }
    r
  }

  /** `generate_candidate`: the strategy is looked up first (`lookup` is the
      outcome of `get_generation(model_name, **kwargs)`), so a failing
      lookup raises before any sample is looked at, even for an empty
      chunk; a successful one runs the loop with the strategy found. */
  function GenerateCandidate(chunk: seq<Sample>, lookup: Result<Generator>): (r: Result<seq<Sample>>)
    ensures lookup.Err? ==> r.Err? && r.error == lookup.error
    ensures r.Ok? <==> lookup.Ok? && forall k :: 0 <= k < |chunk| ==> lookup.value(chunk[k].prompt).Ok?
    ensures lookup.Ok? && r.Err? ==> exists k :: (0 <= k < |chunk| && lookup.value(chunk[k].prompt) == Err(r.error)
      && forall i :: 0 <= i < k ==> lookup.value(chunk[i].prompt).Ok?)
    ensures r.Ok? ==> r.value == MapSeq(chunk, s => WithGeneration(s, lookup.value))
  {
    var generate :- lookup;
    GenerateLoop(chunk, generate)
  }

  /** Mapping every part and concatenating is mapping the concatenation. */
  lemma {:induction false} FlattenMap<T, U>(parts: seq<seq<T>>, f: T -> U)
    ensures Flatten(MapSeq(parts, (c: seq<T>) => MapSeq(c, f))) == MapSeq(Flatten(parts), f)
    decreases |parts|
  {
    if |parts| > 0 {
      var g := (c: seq<T>) => MapSeq(c, f);
      FlattenMap(parts[1..], f);
      assert MapSeq(parts, g)[1..] == MapSeq(parts[1..], g);
      MapAppend(parts[0], Flatten(parts[1..]), f);
    }
  }

  /** `k=v` of one keyword argument. */
  function Render(kv: (string, string)): string {
    kv.0 + "=" + kv.1
  }

  /** The keyword arguments rendered as `key=value` and joined by `_`, in
      the order given. */
  function KwargsString(kwargs: seq<(string, string)>): string {
    Join(MapSeq(kwargs, Render), '_')
  }

  /** The rendering can be taken apart again when no key or value contains
      the separator. A key that contains it (such as a hypothetical
      `max_new_tokens`) would split into several fields, so the file name
      then no longer determines the keyword arguments. */
  lemma KwargsRoundTrip(kwargs: seq<(string, string)>)
    requires |kwargs| > 0
    requires forall k :: 0 <= k < |kwargs| ==> '_' !in kwargs[k].0 && '_' !in kwargs[k].1
    ensures Split(KwargsString(kwargs), '_') == MapSeq(kwargs, Render)
  {
    SplitJoin(MapSeq(kwargs, Render), '_');
  }

  /** The output file name: the benchmark is the second `_`-field of the
      samples path, the prompt strategy the third field up to its first
      `.`; a path with fewer fields raises. */
  function OutputName(samplesPath: string, modelName: string, kwargs: seq<(string, string)>): (r: Result<string>)
    ensures r.Ok? <==> |Split(samplesPath, '_')| >= 3
    ensures r.Err? ==> r.error == IndexError
    ensures r.Ok? ==> StartsWith(r.value, "candidates_") && EndsWith(r.value, ".jsonl.gz")
  {
    var fields := Split(samplesPath, '_');
    if |fields| < 3 then Err(IndexError)
    else
      var benchmark := fields[1];
      var strategy := Split(fields[2], '.')[0];
      var name := "candidates_" + benchmark + "_" + strategy + "_" + modelName + "_" + KwargsString(kwargs) + ".jsonl.gz";
      assert name[..11] == "candidates_";
      assert name[|name| - 9..] == ".jsonl.gz";
      Ok(name)
  }

  /** A samples path built from `_`-free fields, the third a strategy with
      an extension, gives back that benchmark and strategy in the name. */
  lemma OutputNameFields(fields: seq<string>, strategy: string, ext: string,
                         modelName: string, kwargs: seq<(string, string)>)
    requires |fields| >= 3 && forall k :: 0 <= k < |fields| ==> '_' !in fields[k]
    requires fields[2] == strategy + "." + ext && '.' !in strategy
    ensures OutputName(Join(fields, '_'), modelName, kwargs)
      == Ok("candidates_" + fields[1] + "_" + strategy + "_" + modelName + "_" + KwargsString(kwargs) + ".jsonl.gz")
  {
    SplitJoin(fields, '_');
    StrategyField(strategy, ext);
  }

  lemma StrategyField(strategy: string, ext: string)
    requires '.' !in strategy
    ensures Split(strategy + "." + ext, '.')[0] == strategy
  {
    SplitAppend(strategy, "." + ext, '.');
    assert ("." + ext)[0] == '.' && ("." + ext)[1..] == ext;
    assert strategy + "." + ext == strategy + ("." + ext);
    assert strategy + "" == strategy;
  }

  /** Every sample's prompt gets an answer from the strategy. */
  predicate AllGenerate(samples: seq<Sample>, generate: Generator) {
    forall j :: 0 <= j < |samples| ==> generate(samples[j].prompt).Ok?
  }

  /** The strategy is found and answers every sample's prompt. */
  predicate Generates(samples: seq<Sample>, lookup: Result<Generator>) {
    lookup.Ok? && AllGenerate(samples, lookup.value)
  }

  /** One `generate_candidate` task per chunk. */
  function Launch(chunks: seq<seq<Sample>>, lookup: Result<Generator>): (r: seq<Result<seq<Sample>>>)
    ensures |r| == |chunks| && forall i :: 0 <= i < |chunks| ==> r[i] == GenerateCandidate(chunks[i], lookup)
  {
    MapSeq(chunks, (c: seq<Sample>) => GenerateCandidate(c, lookup))
  }

  /** A chunk whose every prompt gets an answer is generated. */
  lemma ChunkGenerates(samples: seq<Sample>, n: int, lookup: Result<Generator>, i: nat)
    requires 0 <= i < n && Generates(samples, lookup)
    ensures GenerateCandidate(Chunks(samples, n).value[i], lookup).Ok?
  {
    var chunk := Chunks(samples, n).value[i];
    forall q | 0 <= q < |chunk| ensures lookup.value(chunk[q].prompt).Ok? {
      ChunkKeepsOrder(samples, n, i, q);
    }
  }

  /** A sample whose prompt makes the strategy raise fails its chunk. */
  lemma ChunkFails(samples: seq<Sample>, n: int, lookup: Result<Generator>, j: nat)
    requires n > 0 && j < |samples| && lookup.Ok? && lookup.value(samples[j].prompt).Err?
    ensures j % n < n && GenerateCandidate(Chunks(samples, n).value[j % n], lookup).Err?
  {
    SampleInChunk(samples, n, j);
  }

  /** What a chunk raises after a successful lookup, the strategy raised for
      one of its samples. */
  lemma ChunkErrorOrigin(samples: seq<Sample>, n: int, lookup: Result<Generator>, i: nat)
    requires 0 <= i < n && lookup.Ok? && GenerateCandidate(Chunks(samples, n).value[i], lookup).Err?
    ensures var e := GenerateCandidate(Chunks(samples, n).value[i], lookup).error;
      exists j :: 0 <= j < |samples| && lookup.value(samples[j].prompt) == Err(e)
  {
    var chunk := Chunks(samples, n).value[i];
    var generate := lookup.value;
    var e := GenerateCandidate(chunk, lookup).error;
    assert GenerateLoop(chunk, generate) == Err(e);
    var q :| 0 <= q < |chunk| && generate(chunk[q].prompt) == Err(e);
    var j := ChunkSource(samples, n, i, q);
    assert generate(samples[j].prompt) == Err(e);
  }

  /** Position `q` of chunk `i` is a sample of the input. */
  lemma ChunkSource<T>(s: seq<T>, n: int, i: nat, q: nat) returns (j: nat)
    requires i < n && q < |Chunks(s, n).value[i]|
    ensures j < |s| && s[j] == Chunks(s, n).value[i][q]
  {
    j := i + q * n;
    ChunkKeepsOrder(s, n, i, q);
  }

  /** Whatever order the workers finish in, collecting them fails exactly
      when the lookup fails or the strategy raises for some sample. A failed
      lookup is what every worker raises, so it is what comes out, with or
      without samples; otherwise the error is what the strategy raised for
      one of the samples. */
  lemma GenerationStatus(samples: seq<Sample>, workers: int, lookup: Result<Generator>, picks: seq<nat>)
    requires workers > 0
    ensures Collect(Drain(Launch(Chunks(samples, workers).value, lookup), picks)).Ok? <==> Generates(samples, lookup)
    ensures lookup.Err? ==> Collect(Drain(Launch(Chunks(samples, workers).value, lookup), picks)) == Err(lookup.error)
    ensures lookup.Ok? && Collect(Drain(Launch(Chunks(samples, workers).value, lookup), picks)).Err? ==>
      exists j :: 0 <= j < |samples|
        && lookup.value(samples[j].prompt) == Err(Collect(Drain(Launch(Chunks(samples, workers).value, lookup), picks)).error)
  {
    var n := workers;
    var done := Launch(Chunks(samples, n).value, lookup);
    var c := Collect(Drain(done, picks));
    assert (forall i :: 0 <= i < |done| ==> done[i].Ok?) <==> Generates(samples, lookup) by {
      if Generates(samples, lookup) {
        forall i | 0 <= i < |done| ensures done[i].Ok? {
          ChunkGenerates(samples, n, lookup, i);
        }
      } else if lookup.Err? {
        assert !done[0].Ok?;
      } else {
        var j :| 0 <= j < |samples| && !lookup.value(samples[j].prompt).Ok?;
        ChunkFails(samples, n, lookup, j);
        assert !done[j % n].Ok?;
      }
    }
    DrainCollectStatus(done, picks);
    if c.Err? {
      var i :| 0 <= i < |done| && done[i] == Err(c.error);
      if lookup.Ok? {
        ChunkErrorOrigin(samples, n, lookup, i);
      }
    }
  }

  /** `entry_point` of the generation stage: deal the samples into
      `n_workers` chunks, let each worker look the strategy up and generate
      its chunk, concatenate the chunks in completion order (`picks` says
      which worker finishes next; `future.result()` re-raises what a worker
      raised), and name the output file. */
  function EntryPoint(samplesPath: string, modelName: string, workers: int, kwargs: seq<(string, string)>,
                      samples: seq<Sample>, lookup: Result<Generator>,
                      picks: seq<nat>): (r: Result<(string, seq<Sample>)>)
    ensures workers <= 0 ==> r == Err(BadWorkers)
    ensures workers > 0 ==> (r.Ok? <==> Generates(samples, lookup) && OutputName(samplesPath, modelName, kwargs).Ok?)
    ensures workers > 0 && lookup.Err? ==> r == Err(lookup.error)
    ensures workers > 0 && lookup.Ok? && !AllGenerate(samples, lookup.value) ==>
      exists j :: 0 <= j < |samples| && lookup.value(samples[j].prompt) == Err(r.error)
    ensures workers > 0 && Generates(samples, lookup) && r.Err? ==>
      r.error == OutputName(samplesPath, modelName, kwargs).error
    ensures r.Ok? ==> r.value.0 == OutputName(samplesPath, modelName, kwargs).value
  {
    var chunks :- Chunks(samples, workers);
    GenerationStatus(samples, workers, lookup, picks);
    var parts :- Collect(Drain(Launch(chunks, lookup), picks));
    var name :- OutputName(samplesPath, modelName, kwargs);
    Ok((name, Flatten(parts)))
  }

  /** With no samples at all, a failed strategy lookup still reaches the
      caller: every worker looks the strategy up before its (empty) loop. */
  lemma EmptyRunStillLooksUp(samplesPath: string, modelName: string, workers: int, kwargs: seq<(string, string)>,
                             e: Error, picks: seq<nat>)
    requires workers > 0
    ensures EntryPoint(samplesPath, modelName, workers, kwargs, [], Err(e), picks) == Err(e)
  {
  }

  /** Whatever order the workers finish in, the results are the input
      samples with their generations, each exactly once. */
  lemma EntryPointPermutes(samplesPath: string, modelName: string, workers: int, kwargs: seq<(string, string)>,
                           samples: seq<Sample>, lookup: Result<Generator>,
                           picks: seq<nat>)
    requires EntryPoint(samplesPath, modelName, workers, kwargs, samples, lookup, picks).Ok?
    ensures lookup.Ok?
    ensures var results := EntryPoint(samplesPath, modelName, workers, kwargs, samples, lookup, picks).value.1;
      multiset(results) == multiset(MapSeq(samples, s => WithGeneration(s, lookup.value)))
  {
    var chunks := Chunks(samples, workers).value;
    var f := (s: Sample) => WithGeneration(s, lookup.value);
    var done := Launch(chunks, lookup);
    var vs := MapSeq(chunks, (c: seq<Sample>) => MapSeq(c, f));
    assert Generates(samples, lookup);
    forall i | 0 <= i < |done| ensures done[i] == Ok(vs[i]) {
      ChunkGenerates(samples, workers, lookup, i);
    }
    DrainCollectValues(done, vs, picks);
    FlattenDrain(vs, picks);
    FlattenMap(chunks, f);
    ChunksPartition(samples, workers);
    MapPermutes(Flatten(chunks), samples, f);
  }
}
