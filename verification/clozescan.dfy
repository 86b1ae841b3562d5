/** The two diff-text scanners of the cloze strategy. Both walk the lines of
    a diff looking for runs of "hunk lines": lines that start with the sign
    (`-` or `+`) but not with the sign twice, so `---`/`+++` headers never
    count. A run is only recorded when a later non-hunk line closes it. */
module ClozeScan {
  import opened Strings
  import opened Folds

  /** `'-' if sign == '+' else '+'`. */
  function Inverse(sign: char): (r: char)
    ensures r != sign
  {
    if sign == '+' then '-' else '+'
  }

  /** The line starts with the sign but not with the sign twice, read off
      its first two characters. */
  predicate IsHunkLine(sign: char, line: string) {
    |line| > 0 && line[0] == sign && (|line| == 1 || line[1] != sign)
  }

  /** `IsHunkLine` is `line.startswith(sign) and not
      line.startswith(sign * 2)`. */
  lemma IsHunkLineByPrefix(sign: char, line: string)
    ensures IsHunkLine(sign, line) <==> StartsWith(line, [sign]) && !StartsWith(line, [sign, sign])
  {
    if |line| >= 2 && line[0] == sign && line[1] == sign {
      assert line[..2] == [sign, sign];
    }
    if |line| > 0 && line[0] == sign {
      assert line[..1] == [sign];
    }
  }

  /** Length of the run of hunk lines that ends just before position `c`. */
  function RunBefore(lines: seq<string>, sign: char, c: nat): (r: nat)
    requires c <= |lines|
    ensures r <= c
    ensures forall k {:trigger IsHunkLine(sign, lines[k])} :: c - r <= k < c ==> IsHunkLine(sign, lines[k])
    ensures r < c ==> !IsHunkLine(sign, lines[c - 1 - r])
  {
    if c == 0 || !IsHunkLine(sign, lines[c - 1]) then 0 else 1 + RunBefore(lines, sign, c - 1)
  }

  /** Line `c` is a non-hunk line that closes a non-empty run. */
  predicate Closes(lines: seq<string>, sign: char, c: nat)
    requires c < |lines|
  {
    !IsHunkLine(sign, lines[c]) && RunBefore(lines, sign, c) > 0
  }

  /** Number of closed runs among the first `n` lines. */
  function ClosedRuns(lines: seq<string>, sign: char, n: nat): nat
    requires n <= |lines|
  {
    if n == 0 then 0 else ClosedRuns(lines, sign, n - 1) + (if Closes(lines, sign, n - 1) then 1 else 0)
  }

  /** Position of the first hunk line among the first `n` lines, or `n`. */
  function FirstHunkLine(lines: seq<string>, sign: char, n: nat): (r: nat)
    requires n <= |lines|
    ensures r <= n
    ensures forall j {:trigger IsHunkLine(sign, lines[j])} :: 0 <= j < r ==> !IsHunkLine(sign, lines[j])
    ensures r < n ==> IsHunkLine(sign, lines[r])
  {
    if n == 0 then 0
    else
      var p := FirstHunkLine(lines, sign, n - 1);
      if p < n - 1 then p else if IsHunkLine(sign, lines[n - 1]) then n - 1 else n
  }

  /** The loop state of `find_all_diff_hunks`: the hunks recorded so far as
      `(distance, lines)` pairs (the dictionary's keys are their positions),
      the running distance and the open run. */
  datatype HunkScan = HunkScan(hunks: seq<(nat, seq<string>)>, distance: nat, current: seq<string>)

  /** The loop of `find_all_diff_hunks` over the first `n` lines. The first
      hunk has distance 0, every later one at least 1 (its closing line), and
      no recorded hunk is empty. */
  function ScanHunks(lines: seq<string>, sign: char, n: nat): (st: HunkScan)
    requires n <= |lines|
    ensures |st.hunks| == 0 ==> st.distance == 0
    ensures |st.hunks| > 0 ==> st.distance >= 1 && st.hunks[0].0 == 0
    ensures forall k :: 0 < k < |st.hunks| ==> st.hunks[k].0 >= 1
    ensures forall k :: 0 <= k < |st.hunks| ==> |st.hunks[k].1| > 0
  {
    if n == 0 then HunkScan([], 0, [])
    else
      var st := ScanHunks(lines, sign, n - 1);
      var line := lines[n - 1];
      if IsHunkLine(sign, line) then st.(current := st.current + [line[1..]])
      else
        var st := if |st.current| != 0 then HunkScan(st.hunks + [(st.distance, st.current)], 0, []) else st;
        if |st.hunks| != 0 then st.(distance := st.distance + 1) else st
  }

  function HunkSize(h: (nat, seq<string>)): nat {
    |h.1|
  }

  function HunkDistance(h: (nat, seq<string>)): nat {
    h.0
  }

  /** The open run is the trailing run of hunk lines. */
  lemma {:induction false} ScanHunksOpenRun(lines: seq<string>, sign: char, n: nat)
    requires n <= |lines|
    ensures |ScanHunks(lines, sign, n).current| == RunBefore(lines, sign, n)
  {
    if n > 0 {
      ScanHunksOpenRun(lines, sign, n - 1);
    }
  }

  /** The recorded hunks are exactly the closed runs. */
  lemma {:induction false} ScanHunksClosedRuns(lines: seq<string>, sign: char, n: nat)
    requires n <= |lines|
    ensures |ScanHunks(lines, sign, n).hunks| == ClosedRuns(lines, sign, n)
  {
    if n > 0 {
      ScanHunksClosedRuns(lines, sign, n - 1);
      ScanHunksOpenRun(lines, sign, n - 1);
    }
  }

  /** The lines the scan of the first `n` lines has accounted for: those
      before the first hunk line, the recorded hunks' lines, the open run,
      and the distances. */
  function Accounted(lines: seq<string>, sign: char, n: nat): nat
    requires n <= |lines|
  {
    var st := ScanHunks(lines, sign, n);
    FirstHunkLine(lines, sign, n) + SumOf(st.hunks, HunkSize) + |st.current|
      + SumOf(st.hunks, HunkDistance) + (if |st.hunks| > 0 then st.distance else 0)
  }

  /** Each line read is accounted for exactly once. */
  lemma AccountedStep(lines: seq<string>, sign: char, n: nat)
    requires 0 < n <= |lines|
    requires Accounted(lines, sign, n - 1) == n - 1
    ensures Accounted(lines, sign, n) == n
  {
    var st, st' := ScanHunks(lines, sign, n - 1), ScanHunks(lines, sign, n);
    var line := lines[n - 1];
    var f := FirstHunkLine(lines, sign, n - 1);
    var size, dist := SumOf(st.hunks, HunkSize), SumOf(st.hunks, HunkDistance);
    var open := if |st.hunks| > 0 then st.distance else 0;
    assert n - 1 == f + size + |st.current| + dist + open;
    if IsHunkLine(sign, line) {
      assert Accounted(lines, sign, n) == n by {
        assert st' == st.(current := st.current + [line[1..]]);
        assert FirstHunkLine(lines, sign, n) == f;
      }
    } else if |st.current| != 0 {
      var h := (st.distance, st.current);
      assert Accounted(lines, sign, n) == n by {
        assert st' == HunkScan(st.hunks + [h], 1, []);
        assert FirstHunkLine(lines, sign, n) == f;
        assert SumOf(st'.hunks, HunkSize) == size + |st.current| by {
          SumAppend(st.hunks, [h], HunkSize);
          SumSingle(h, HunkSize);
        }
        assert SumOf(st'.hunks, HunkDistance) == dist + st.distance by {
          SumAppend(st.hunks, [h], HunkDistance);
          SumSingle(h, HunkDistance);
        }
      }
    } else if |st.hunks| != 0 {
      assert Accounted(lines, sign, n) == n by {
        assert st' == st.(distance := st.distance + 1);
        assert FirstHunkLine(lines, sign, n) == f;
      }
    } else {
      assert Accounted(lines, sign, n) == n by {
        assert st' == st;
        assert FirstHunkLine(lines, sign, n) == n;
      }
    }
  }

  /** Every line is counted once: before the first hunk line, in a hunk, in
      the open run, or in a distance. */
  lemma {:induction false} ScanHunksLineCount(lines: seq<string>, sign: char, n: nat)
    requires n <= |lines|
    ensures n == Accounted(lines, sign, n)
  {
    if n > 0 {
      ScanHunksLineCount(lines, sign, n - 1);
      AccountedStep(lines, sign, n);
    }
  }

  /** The scan accounts for every line exactly once: the lines before the
      first hunk line, the recorded hunks' lines, the open run, and the
      distances (which count the lines after each hunk). There are as many
      recorded hunks as closed runs, and the open run is as long as the
      trailing run. */
  lemma ScanHunksAccounts(lines: seq<string>, sign: char, n: nat)
    requires n <= |lines|
    ensures var st := ScanHunks(lines, sign, n);
      && |st.hunks| == ClosedRuns(lines, sign, n)
      && |st.current| == RunBefore(lines, sign, n)
      && n == FirstHunkLine(lines, sign, n) + SumOf(st.hunks, HunkSize) + |st.current|
              + SumOf(st.hunks, HunkDistance) + (if |st.hunks| > 0 then st.distance else 0)
  {
    ScanHunksClosedRuns(lines, sign, n);
    ScanHunksOpenRun(lines, sign, n);
    ScanHunksLineCount(lines, sign, n);
  }

  /** A hunk line as stored: without its sign. */
  function Unsigned(line: string): string {
    if |line| == 0 then line else line[1..]
  }

  /** The closed runs among the first `n` lines, in order, as `(start, end)`
      pairs: `lines[start..end]` is the run and `lines[end]` the line that
      closes it. */
  function ClosedRunBounds(lines: seq<string>, sign: char, n: nat): (r: seq<(nat, nat)>)
    requires n <= |lines|
    ensures |r| == ClosedRuns(lines, sign, n)
    ensures forall k :: 0 <= k < |r| ==> r[k].0 <= r[k].1 < n
  {
    if n == 0 then []
    else
      var r := ClosedRunBounds(lines, sign, n - 1);
      if Closes(lines, sign, n - 1) then r + [(n - 1 - RunBefore(lines, sign, n - 1), n - 1)] else r
  }

  /** `lines[start..end]` is a maximal run of hunk lines and `lines[end]`
      the non-hunk line that closes it. */
  predicate IsClosedRun(lines: seq<string>, sign: char, run: (nat, nat)) {
    run.1 < |lines| && Closes(lines, sign, run.1) && run.0 + RunBefore(lines, sign, run.1) == run.1
  }

  /** Each pair is a closed run. */
  lemma {:induction false} ClosedRunBoundsAreRuns(lines: seq<string>, sign: char, n: nat)
    requires n <= |lines|
    ensures forall k :: 0 <= k < |ClosedRunBounds(lines, sign, n)| ==> IsClosedRun(lines, sign, ClosedRunBounds(lines, sign, n)[k])
  {
    if n > 0 {
      ClosedRunBoundsAreRuns(lines, sign, n - 1);
      var r := ClosedRunBounds(lines, sign, n - 1);
      if Closes(lines, sign, n - 1) {
        var r' := r + [(n - 1 - RunBefore(lines, sign, n - 1), n - 1)];
        assert forall k :: 0 <= k < |r| ==> r'[k] == r[k];
        assert IsClosedRun(lines, sign, r'[|r|]);
      }
    }
  }

  /** Every closing line among the first `n` ends one of the runs. */
  lemma {:induction false} ClosedRunBoundsComplete(lines: seq<string>, sign: char, n: nat, c: nat)
    requires c < n <= |lines| && Closes(lines, sign, c)
    ensures exists k :: 0 <= k < |ClosedRunBounds(lines, sign, n)| && ClosedRunBounds(lines, sign, n)[k].1 == c
  {
    var r := ClosedRunBounds(lines, sign, n - 1);
    if c == n - 1 {
      assert ClosedRunBounds(lines, sign, n)[|r|].1 == c;
    } else {
      ClosedRunBoundsComplete(lines, sign, n - 1, c);
      var k :| 0 <= k < |r| && r[k].1 == c;
      assert ClosedRunBounds(lines, sign, n)[k] == r[k];
    }
  }

  /** The runs are listed in order, each after the previous one's closing
      line, and the last closing line lies before the trailing run. */
  lemma {:induction false} ClosedRunBoundsOrdered(lines: seq<string>, sign: char, n: nat)
    requires n <= |lines|
    ensures forall i, j :: 0 <= i < j < |ClosedRunBounds(lines, sign, n)| ==>
      ClosedRunBounds(lines, sign, n)[i].1 < ClosedRunBounds(lines, sign, n)[j].0
    ensures |ClosedRunBounds(lines, sign, n)| > 0 ==>
      LastEnd(ClosedRunBounds(lines, sign, n)) < n - RunBefore(lines, sign, n)
  {
    if n > 0 {
      ClosedRunBoundsOrdered(lines, sign, n - 1);
      var r := ClosedRunBounds(lines, sign, n - 1);
      if Closes(lines, sign, n - 1) {
        var r' := r + [(n - 1 - RunBefore(lines, sign, n - 1), n - 1)];
        assert forall k :: 0 <= k < |r| ==> r'[k] == r[k];
      }
    }
  }

  /** Where the last of a non-empty list of runs ends. */
  function LastEnd(runs: seq<(nat, nat)>): nat
    requires |runs| > 0
  {
    runs[|runs| - 1].1
  }

  /** The stored lines of a run: its lines without their sign, in order. */
  function RunLines(lines: seq<string>, run: (nat, nat)): seq<string>
    decreases run.1 - run.0
  {
    if run.1 <= run.0 || |lines| < run.1 then [] else RunLines(lines, (run.0, run.1 - 1)) + [Unsigned(lines[run.1 - 1])]
  }

  /** `RunLines` maps `Unsigned` over the run's slice. */
  lemma {:induction false} RunLinesMap(lines: seq<string>, run: (nat, nat))
    requires run.0 <= run.1 <= |lines|
    ensures RunLines(lines, run) == MapSeq(lines[run.0..run.1], Unsigned)
    decreases run.1 - run.0
  {
    if run.0 < run.1 {
      RunLinesMap(lines, (run.0, run.1 - 1));
      assert lines[run.0..run.1] == lines[run.0..run.1 - 1] + [lines[run.1 - 1]];
      MapAppend(lines[run.0..run.1 - 1], [lines[run.1 - 1]], Unsigned);
    } else {
      assert lines[run.0..run.1] == [];
    }
  }

  /** A hunk line extends the open run and the trailing run alike. */
  lemma ExtendStep(lines: seq<string>, sign: char, n: nat)
    requires 0 < n <= |lines| && IsHunkLine(sign, lines[n - 1])
    ensures ScanHunks(lines, sign, n).hunks == ScanHunks(lines, sign, n - 1).hunks
    ensures ScanHunks(lines, sign, n).distance == ScanHunks(lines, sign, n - 1).distance
    ensures ScanHunks(lines, sign, n).current == ScanHunks(lines, sign, n - 1).current + [Unsigned(lines[n - 1])]
    ensures ClosedRunBounds(lines, sign, n) == ClosedRunBounds(lines, sign, n - 1)
    ensures n - RunBefore(lines, sign, n) == n - 1 - RunBefore(lines, sign, n - 1)
  {
  }

  /** A non-hunk line after an open run records it as the next closed run. */
  lemma CloseStep(lines: seq<string>, sign: char, n: nat)
    requires 0 < n <= |lines| && !IsHunkLine(sign, lines[n - 1]) && |ScanHunks(lines, sign, n - 1).current| != 0
    ensures var st := ScanHunks(lines, sign, n - 1);
      ScanHunks(lines, sign, n) == HunkScan(st.hunks + [(st.distance, st.current)], 1, [])
    ensures ClosedRunBounds(lines, sign, n) == ClosedRunBounds(lines, sign, n - 1) + [(n - 1 - RunBefore(lines, sign, n - 1), n - 1)]
    ensures RunBefore(lines, sign, n) == 0
  {
    ScanHunksOpenRun(lines, sign, n - 1);
  }

  /** A non-hunk line with no open run records nothing. */
  lemma QuietStep(lines: seq<string>, sign: char, n: nat)
    requires 0 < n <= |lines| && !IsHunkLine(sign, lines[n - 1]) && |ScanHunks(lines, sign, n - 1).current| == 0
    ensures ScanHunks(lines, sign, n).hunks == ScanHunks(lines, sign, n - 1).hunks
    ensures ScanHunks(lines, sign, n).current == []
    ensures |ScanHunks(lines, sign, n).hunks| > 0 ==> ScanHunks(lines, sign, n).distance == ScanHunks(lines, sign, n - 1).distance + 1
    ensures ClosedRunBounds(lines, sign, n) == ClosedRunBounds(lines, sign, n - 1)
    ensures RunBefore(lines, sign, n) == 0
  {
    ScanHunksOpenRun(lines, sign, n - 1);
  }

  /** Hunk `k` stores the lines of run `k`, for every `k`. */
  predicate StoresRuns(lines: seq<string>, hunks: seq<(nat, seq<string>)>, runs: seq<(nat, nat)>) {
    |hunks| == |runs| && forall k :: 0 <= k < |runs| ==> hunks[k].1 == RunLines(lines, runs[k])
  }

  /** The first hunk has distance 0 and hunk `k > 0` the distance from the
      end of run `k - 1` to the start of run `k`. */
  predicate SpacedLikeRuns(hunks: seq<(nat, seq<string>)>, runs: seq<(nat, nat)>) {
    && |hunks| == |runs|
    && (|runs| > 0 ==> hunks[0].0 == 0)
    && forall k :: 0 < k < |runs| ==> hunks[k].0 == runs[k].0 as int - runs[k - 1].1
  }

  lemma StoresRunsSnoc(lines: seq<string>, hunks: seq<(nat, seq<string>)>, runs: seq<(nat, nat)>,
                       h: (nat, seq<string>), run: (nat, nat))
    requires StoresRuns(lines, hunks, runs) && h.1 == RunLines(lines, run)
    ensures StoresRuns(lines, hunks + [h], runs + [run])
  {
    assert forall k :: 0 <= k < |runs| ==> (hunks + [h])[k] == hunks[k] && (runs + [run])[k] == runs[k];
  }

  lemma SpacedLikeRunsSnoc(hunks: seq<(nat, seq<string>)>, runs: seq<(nat, nat)>, h: (nat, seq<string>), run: (nat, nat))
    requires SpacedLikeRuns(hunks, runs)
    requires |runs| == 0 ==> h.0 == 0
    requires |runs| > 0 ==> h.0 == run.0 as int - runs[|runs| - 1].1
    ensures SpacedLikeRuns(hunks + [h], runs + [run])
  {
    var hs, rs := hunks + [h], runs + [run];
    forall k | 0 < k < |rs| ensures hs[k].0 == rs[k].0 as int - rs[k - 1].1 {
      if k < |runs| {
        assert hs[k] == hunks[k] && rs[k] == runs[k] && rs[k - 1] == runs[k - 1];
      }
    }
    assert |runs| > 0 ==> hs[0] == hunks[0];
  }

  /** The open run holds the trailing run of hunk lines without their
      sign. */
  lemma {:induction false} ScanHunksOpenLines(lines: seq<string>, sign: char, n: nat)
    requires n <= |lines|
    ensures ScanHunks(lines, sign, n).current == RunLines(lines, (n - RunBefore(lines, sign, n), n))
  {
    if n > 0 {
      ScanHunksOpenLines(lines, sign, n - 1);
      var a := n - 1 - RunBefore(lines, sign, n - 1);
      if IsHunkLine(sign, lines[n - 1]) {
        ExtendStep(lines, sign, n);
        assert RunLines(lines, (a, n)) == RunLines(lines, (a, n - 1)) + [Unsigned(lines[n - 1])];
      } else {
        if |ScanHunks(lines, sign, n - 1).current| != 0 {
          CloseStep(lines, sign, n);
        } else {
          QuietStep(lines, sign, n);
        }
        assert RunLines(lines, (n, n)) == [];
      }
    }
  }

  /** The recorded hunks hold, in order, exactly the lines of the closed
      runs without their sign. */
  lemma {:induction false} ScanHunksLines(lines: seq<string>, sign: char, n: nat)
    requires n <= |lines|
    ensures StoresRuns(lines, ScanHunks(lines, sign, n).hunks, ClosedRunBounds(lines, sign, n))
  {
    if n > 0 {
      ScanHunksLines(lines, sign, n - 1);
      var st := ScanHunks(lines, sign, n - 1);
      if IsHunkLine(sign, lines[n - 1]) {
        ExtendStep(lines, sign, n);
      } else if |st.current| != 0 {
        CloseStep(lines, sign, n);
        ScanHunksOpenLines(lines, sign, n - 1);
        var run := (n - 1 - RunBefore(lines, sign, n - 1), n - 1);
        StoresRunsSnoc(lines, st.hunks, ClosedRunBounds(lines, sign, n - 1), (st.distance, st.current), run);
      } else {
        QuietStep(lines, sign, n);
      }
    }
  }

  /** Once a hunk is recorded, the running distance counts the lines from
      the line that closed the last one (included) up to the trailing run. */
  lemma {:induction false} ScanHunksRunningDistance(lines: seq<string>, sign: char, n: nat)
    requires n <= |lines|
    ensures |ScanHunks(lines, sign, n).hunks| == |ClosedRunBounds(lines, sign, n)|
    ensures |ClosedRunBounds(lines, sign, n)| > 0 ==>
      ScanHunks(lines, sign, n).distance == n - RunBefore(lines, sign, n) - LastEnd(ClosedRunBounds(lines, sign, n))
  {
    if n > 0 {
      ScanHunksRunningDistance(lines, sign, n - 1);
      if IsHunkLine(sign, lines[n - 1]) {
        ExtendStep(lines, sign, n);
      } else if |ScanHunks(lines, sign, n - 1).current| != 0 {
        CloseStep(lines, sign, n);
      } else {
        QuietStep(lines, sign, n);
      }
    }
  }

  /** The first recorded hunk has distance 0; every later one the number of
      lines from the line that closed the previous hunk (included) up to its
      own first line. */
  lemma {:induction false} ScanHunksDistances(lines: seq<string>, sign: char, n: nat)
    requires n <= |lines|
    ensures SpacedLikeRuns(ScanHunks(lines, sign, n).hunks, ClosedRunBounds(lines, sign, n))
  {
    if n > 0 {
      ScanHunksDistances(lines, sign, n - 1);
      var st, runs := ScanHunks(lines, sign, n - 1), ClosedRunBounds(lines, sign, n - 1);
      var hunks', runs' := ScanHunks(lines, sign, n).hunks, ClosedRunBounds(lines, sign, n);
      if IsHunkLine(sign, lines[n - 1]) {
        ExtendStep(lines, sign, n);
        assert hunks' == st.hunks && runs' == runs;
      } else if |st.current| != 0 {
        CloseStep(lines, sign, n);
        ScanHunksRunningDistance(lines, sign, n - 1);
        var h, run := (st.distance, st.current), (n - 1 - RunBefore(lines, sign, n - 1), n - 1);
        SpacedLikeRunsSnoc(st.hunks, runs, h, run);
        assert hunks' == st.hunks + [h] && runs' == runs + [run];
      } else {
        QuietStep(lines, sign, n);
        assert hunks' == st.hunks && runs' == runs;
      }
    }
  }

  /** The hunks of the first `n` lines, written out directly: one per
      closed run, in order, holding the run's lines without their sign;
      the first at distance 0 and every later one at the number of lines
      from the line that closed the previous run up to its own first line. */
  function ExpectedHunks(lines: seq<string>, sign: char, n: nat): seq<(nat, seq<string>)>
    requires n <= |lines|
  {
    var runs := ClosedRunBounds(lines, sign, n);
    ClosedRunBoundsOrdered(lines, sign, n);
    seq(|runs|, k requires 0 <= k < |runs| =>
      (if k == 0 then 0 else runs[k].0 - runs[k - 1].1, MapSeq(lines[runs[k].0..runs[k].1], Unsigned)))
  }

  /** `find_all_diff_hunks`'s scan in full: hunk `k` is closed run `k`, its
      lines stripped of their sign and in order; the first hunk has distance
      0 and every later one the number of lines from the line that closed
      the previous run up to its own first line. */
  lemma ScanHunksExact(lines: seq<string>, sign: char, n: nat)
    requires n <= |lines|
    ensures |ScanHunks(lines, sign, n).hunks| == |ClosedRunBounds(lines, sign, n)|
    ensures forall k :: 0 <= k < |ClosedRunBounds(lines, sign, n)| ==>
      ScanHunks(lines, sign, n).hunks[k].1
        == MapSeq(lines[ClosedRunBounds(lines, sign, n)[k].0..ClosedRunBounds(lines, sign, n)[k].1], Unsigned)
    ensures |ClosedRunBounds(lines, sign, n)| > 0 ==> ScanHunks(lines, sign, n).hunks[0].0 == 0
    ensures forall k :: 0 < k < |ClosedRunBounds(lines, sign, n)| ==>
      ScanHunks(lines, sign, n).hunks[k].0 == ClosedRunBounds(lines, sign, n)[k].0 as int - ClosedRunBounds(lines, sign, n)[k - 1].1
  {
    var hunks, runs := ScanHunks(lines, sign, n).hunks, ClosedRunBounds(lines, sign, n);
    ScanHunksLines(lines, sign, n);
    ScanHunksDistances(lines, sign, n);
    forall k | 0 <= k < |runs| ensures hunks[k].1 == MapSeq(lines[runs[k].0..runs[k].1], Unsigned) {
      RunLinesMap(lines, runs[k]);
    }
  }

  /** The scan records exactly the hunks written out by `ExpectedHunks`. */
  lemma ScanHunksExpected(lines: seq<string>, sign: char, n: nat)
    requires n <= |lines|
    ensures ScanHunks(lines, sign, n).hunks == ExpectedHunks(lines, sign, n)
  {
    var hunks, runs := ScanHunks(lines, sign, n).hunks, ClosedRunBounds(lines, sign, n);
    var e := ExpectedHunks(lines, sign, n);
    ScanHunksExact(lines, sign, n);
    forall k | 0 <= k < |runs| ensures hunks[k] == e[k] {
      assert hunks[k].1 == e[k].1;
      assert hunks[k].0 == e[k].0;
    }
  }

  /** Every line of `xs` is a hunk line of `lines` with its sign removed. */
  predicate FromHunkLines(xs: seq<string>, lines: seq<string>, sign: char) {
    forall i :: 0 <= i < |xs| ==> IsHunkLine(sign, [sign] + xs[i]) && [sign] + xs[i] in lines
  }

  /** Every stored hunk line is a hunk line of the input with its sign
      removed; in particular it never comes from a doubled-sign header. */
  lemma {:induction false} ScanHunksOrigin(lines: seq<string>, sign: char, n: nat)
    requires n <= |lines|
    ensures FromHunkLines(ScanHunks(lines, sign, n).current, lines, sign)
    ensures forall k :: 0 <= k < |ScanHunks(lines, sign, n).hunks| ==>
              FromHunkLines(ScanHunks(lines, sign, n).hunks[k].1, lines, sign)
  {
    if n > 0 {
      ScanHunksOrigin(lines, sign, n - 1);
      var st := ScanHunks(lines, sign, n - 1);
      var line := lines[n - 1];
      if IsHunkLine(sign, line) {
        var cur := st.current + [line[1..]];
        assert [sign] + line[1..] == line;
        assert line in lines;
        assert cur[|st.current|] == line[1..];
        assert forall i :: 0 <= i < |st.current| ==> cur[i] == st.current[i];
      } else if |st.current| != 0 {
        var hs := st.hunks + [(st.distance, st.current)];
        assert hs[|st.hunks|].1 == st.current;
        assert forall k :: 0 <= k < |st.hunks| ==> hs[k] == st.hunks[k];
      }
    }
  }

  /** A run still open when the input ends is never recorded. */
  lemma {:induction false} TrailingRunNotRecorded(lines: seq<string>, sign: char, n: nat, m: nat)
    requires n <= m <= |lines|
    requires forall j {:trigger IsHunkLine(sign, lines[j])} :: n <= j < m ==> IsHunkLine(sign, lines[j])
    ensures ScanHunks(lines, sign, m).hunks == ScanHunks(lines, sign, n).hunks
    decreases m
  {
    if m > n {
      TrailingRunNotRecorded(lines, sign, n, m - 1);
    }
  }

  /** The first filter of `find_all_diff_hunks`. */
  function KeepLine(sign: char): string -> bool {
    l => !StartsWith(l, [Inverse(sign)])
  }

  /** The lines `find_all_diff_hunks` scans: those not of the other side. */
  function Kept(diffLines: seq<string>, sign: char): (r: seq<string>)
    ensures forall k :: 0 <= k < |r| ==> !StartsWith(r[k], [Inverse(sign)])
  {
    Filter(diffLines, KeepLine(sign))
  }

  /** `find_all_diff_hunks`: drop the lines of the other side, then scan.
      The hunks are `ExpectedHunks` of the kept lines: the closed runs in
      order of appearance, each without its sign, with the distances
      between them. */
  function FindAllDiffHunks(diffLines: seq<string>, sign: char): (r: seq<(nat, seq<string>)>)
    ensures r == ExpectedHunks(Kept(diffLines, sign), sign, |Kept(diffLines, sign)|)
    ensures |r| > 0 ==> r[0].0 == 0
    ensures forall k :: 0 < k < |r| ==> r[k].0 >= 1
    ensures forall k :: 0 <= k < |r| ==> |r[k].1| > 0
  {
    var kept := Kept(diffLines, sign);
    ScanHunksExpected(kept, sign, |kept|);
    ScanHunks(kept, sign, |kept|).hunks
  }

  /** A line of the other side has no effect at all on the hunks found. */
  lemma InverseLinesIgnored(a: seq<string>, l: string, b: seq<string>, sign: char)
    requires StartsWith(l, [Inverse(sign)])
    ensures FindAllDiffHunks(a + [l] + b, sign) == FindAllDiffHunks(a + b, sign)
  {
    FilterAppend(a + [l], b, KeepLine(sign));
    FilterAppend(a, [l], KeepLine(sign));
    FilterSingle(l, KeepLine(sign));
    FilterAppend(a, b, KeepLine(sign));
    assert Filter(a, KeepLine(sign)) + [] == Filter(a, KeepLine(sign));
  }

  /** The loop state of `find_longest_diff_hunk`. */
  datatype LongestScan = LongestScan(maxLen: nat, curLen: nat, longest: seq<string>, current: seq<string>)

  /** The loop of `find_longest_diff_hunk` over the first `n` lines: the open
      run is always the trailing run of hunk lines, and `max_len` is the
      length of the best run. */
  function ScanLongest(lines: seq<string>, sign: char, n: nat): (st: LongestScan)
    requires n <= |lines|
    ensures st.curLen == |st.current| == RunBefore(lines, sign, n)
    ensures st.current == lines[n - st.curLen..n]
    ensures st.maxLen == |st.longest|
  {
    if n == 0 then LongestScan(0, 0, [], [])
    else
      var st := ScanLongest(lines, sign, n - 1);
      var line := lines[n - 1];
      if IsHunkLine(sign, line) then
        assert lines[n - 1 - st.curLen..n] == lines[n - 1 - st.curLen..n - 1] + [line];
        st.(curLen := st.curLen + 1, current := st.current + [line])
      else if st.curLen > st.maxLen then LongestScan(st.curLen, 0, st.current, [])
      else st.(curLen := 0, current := [])
  }

  /** `find_longest_diff_hunk`: no run closed anywhere in the input is
      longer than the result; `LongestClosedRun` says which run it is. */
  function FindLongestDiffHunk(diffLines: seq<string>, sign: char): (r: seq<string>)
    ensures forall c {:trigger Closes(diffLines, sign, c)} :: 0 <= c < |diffLines| && Closes(diffLines, sign, c) ==>
              RunBefore(diffLines, sign, c) <= |r|
  {
    LongestIsMaximal(diffLines, sign, |diffLines|);
    ScanLongest(diffLines, sign, |diffLines|).longest
  }

  /** The run closed by line `c` is no longer than the result after `n`
      lines: the result only grows. */
  lemma {:induction false} LongestIsMaximalAt(lines: seq<string>, sign: char, n: nat, c: nat)
    requires c < n <= |lines| && Closes(lines, sign, c)
    ensures RunBefore(lines, sign, c) <= |ScanLongest(lines, sign, n).longest|
  {
    var st := ScanLongest(lines, sign, n - 1);
    var r := ScanLongest(lines, sign, n).longest;
    assert |st.longest| <= |r| by {
      LongestStep(lines, sign, n);
    }
    if c < n - 1 {
      LongestIsMaximalAt(lines, sign, n - 1, c);
      assert RunBefore(lines, sign, c) <= |st.longest|;
    } else {
      assert RunBefore(lines, sign, c) <= |r| by {
        LongestStep(lines, sign, n);
      }
    }
  }

  /** No closed run is longer than the result. */
  lemma LongestIsMaximal(lines: seq<string>, sign: char, n: nat)
    requires n <= |lines|
    ensures forall c {:trigger Closes(lines, sign, c)} :: 0 <= c < n && Closes(lines, sign, c) ==>
              RunBefore(lines, sign, c) <= |ScanLongest(lines, sign, n).longest|
  {
    forall c | 0 <= c < n && Closes(lines, sign, c)
      ensures RunBefore(lines, sign, c) <= |ScanLongest(lines, sign, n).longest|
    {
      LongestIsMaximalAt(lines, sign, n, c);
    }
  }

  /** `r` is the run of hunk lines closed by line `j`, and every run closed
      before `j` is strictly shorter. */
  predicate ClosedRunAt(lines: seq<string>, sign: char, j: nat, r: seq<string>)
  {
    && j < |lines| && Closes(lines, sign, j) && RunBefore(lines, sign, j) == |r| && r == lines[j - |r|..j]
    && (forall c {:trigger Closes(lines, sign, c)} :: 0 <= c < j && Closes(lines, sign, c) ==> RunBefore(lines, sign, c) < |r|)
  }

  /** One step of the loop, as far as the result is concerned. */
  lemma LongestStep(lines: seq<string>, sign: char, n: nat)
    requires 0 < n <= |lines|
    ensures var st := ScanLongest(lines, sign, n - 1);
      ScanLongest(lines, sign, n).longest
        == if !IsHunkLine(sign, lines[n - 1]) && st.curLen > st.maxLen then st.current else st.longest
  {
  }

  /** A line that closes a run longer than every earlier closed run makes
      that run the new result. */
  lemma LongestNewRecord(lines: seq<string>, sign: char, n: nat)
    requires 0 < n <= |lines|
    requires !IsHunkLine(sign, lines[n - 1])
    requires ScanLongest(lines, sign, n - 1).curLen > ScanLongest(lines, sign, n - 1).maxLen
    ensures ClosedRunAt(lines, sign, n - 1, ScanLongest(lines, sign, n).longest)
  {
    var st := ScanLongest(lines, sign, n - 1);
    var r := ScanLongest(lines, sign, n).longest;
    assert r == st.current by {
      LongestStep(lines, sign, n);
    }
    assert Closes(lines, sign, n - 1) && RunBefore(lines, sign, n - 1) == |r|;
    assert r == lines[n - 1 - |r|..n - 1];
    assert |st.longest| < |r|;
    LongestIsMaximal(lines, sign, n - 1);
  }

  /** A non-empty result is the run closed by some line `j` before `n`. */
  lemma {:induction false} LongestWitness(lines: seq<string>, sign: char, n: nat) returns (j: nat, r: seq<string>)
    requires n <= |lines|
    ensures r == ScanLongest(lines, sign, n).longest
    ensures |r| > 0 ==> j < n && ClosedRunAt(lines, sign, j, r)
  {
    if n == 0 {
      j, r := 0, [];
    } else {
      var st := ScanLongest(lines, sign, n - 1);
      if !IsHunkLine(sign, lines[n - 1]) && st.curLen > st.maxLen {
        j, r := n - 1, ScanLongest(lines, sign, n).longest;
        assert ClosedRunAt(lines, sign, j, r) by {
          LongestNewRecord(lines, sign, n);
        }
      } else {
        j, r := LongestWitness(lines, sign, n - 1);
        assert r == ScanLongest(lines, sign, n).longest by {
          LongestStep(lines, sign, n);
        }
      }
    }
  }

  /** The result is the first closed run of maximal length (ties keep the
      earlier run), given with its signs; with no closed run it is empty.
      `j` is the position of the line that closes it. */
  lemma LongestClosedRun(lines: seq<string>, sign: char, n: nat) returns (j: nat)
    requires n <= |lines|
    ensures var r := ScanLongest(lines, sign, n).longest;
      && (forall c {:trigger Closes(lines, sign, c)} :: 0 <= c < n && Closes(lines, sign, c) ==> RunBefore(lines, sign, c) <= |r|)
      && (|r| > 0 ==> j < n && Closes(lines, sign, j) && RunBefore(lines, sign, j) == |r| && r == lines[j - |r|..j])
      && (|r| > 0 ==> forall c {:trigger Closes(lines, sign, c)} :: 0 <= c < j && Closes(lines, sign, c) ==> RunBefore(lines, sign, c) < |r|)
      && (forall k :: 0 <= k < |r| ==> IsHunkLine(sign, r[k]))
  {
    LongestIsMaximal(lines, sign, n);
    var r;
    j, r := LongestWitness(lines, sign, n);
    if |r| > 0 {
      assert ClosedRunAt(lines, sign, j, r);
      forall k | 0 <= k < |r|
        ensures IsHunkLine(sign, r[k])
      {
        assert r[k] == lines[j - |r| + k];
      }
    }
  }

  /** Appending more hunk lines (an open run) never changes the result. */
  lemma {:induction false} LongestIgnoresTrailingRun(lines: seq<string>, sign: char, n: nat, m: nat)
    requires n <= m <= |lines|
    requires forall j {:trigger IsHunkLine(sign, lines[j])} :: n <= j < m ==> IsHunkLine(sign, lines[j])
    ensures ScanLongest(lines, sign, m).longest == ScanLongest(lines, sign, n).longest
    decreases m
  {
    if m > n {
      LongestIgnoresTrailingRun(lines, sign, n, m - 1);
    }
  }
}
