/** A GitBug-Java bug: checkout through the benchmark's command-line tool
    under a retry policy, no separate compilation, and a test verdict read
    from the tool's report. Every process is an abstract outcome. */
module GitBugJava {
  import opened Outcomes
  import opened Strings
  import opened Processes
  import opened Backoff

  /** `max_tries=3`, `interval=1` with the constant wait generator. */
  const CheckoutPolicy := Policy(3, 1)

  /** `timeout=30 * 60` seconds for the test run. */
  const TestTimeout: nat := 30 * 60

  /** The command `checkout` runs; the flag comes last and only for the
      fixed version. */
  function CheckoutCommand(bin: string, bid: string, path: string, fixed: bool): (c: string)
    ensures StartsWith(c, bin + " checkout " + bid + " " + path + " ")
    ensures EndsWith(c, "--fixed") <==> fixed
  {
    var head := bin + " checkout " + bid + " " + path + " ";
    var c := head + (if fixed then "--fixed" else "");
    assert c[..|head|] == head;
    assert !fixed ==> c[|c| - 1] == ' ';
    c
  }

  /** One undecorated call of `checkout` when the tool behaves as `o`: a
      nonzero exit raises, so a return is always `True`. Removing the old
      directory ignores errors and is not modelled. */
  function CheckoutAttempt(bin: string, bid: string, path: string, fixed: bool, o: Outcome): (r: Result<bool>)
    ensures r.Ok? <==> o.Exited? && o.returnCode == 0
    ensures r.Ok? ==> r.value
    ensures Retriable(r) <==> o.Exited? && o.returnCode != 0
  {
    var req := Request(CheckoutCommand(bin, bid, path, fixed), None, None, true);
    var run :- Run(req, o);
    CheckedRunSucceeded(req, o);
    Ok(run.returnCode == 0)
  }

  /** The decorated `checkout`; `answers(k)` is how the tool behaves on the
      `k`-th call. At most three calls, one second apart; only a nonzero
      exit is retried, and a normal return is always `True`. */
  function Checkout(bin: string, bid: string, path: string, fixed: bool, answers: nat -> Outcome): (t: Trace<bool>)
    ensures 1 <= t.attempts <= 3
    ensures t.waits == seq(t.attempts - 1, _ => 1)
    ensures t.result.Ok? ==> t.result.value
    ensures forall j :: 0 <= j < t.attempts - 1 ==> answers(j).Exited? && answers(j).returnCode != 0
    ensures t.result.Ok? <==> answers(t.attempts - 1).Exited? && answers(t.attempts - 1).returnCode == 0
    ensures t.result.Err? && t.result.error.CalledProcessError? ==> t.attempts == 3
  {
    var call := (k: nat) => CheckoutAttempt(bin, bid, path, fixed, answers(k));
    var t := Retry(call, CheckoutPolicy);
    assert t.waits == seq(t.attempts - 1, _ => 1) by {
      assert forall i :: 0 <= i < |t.waits| ==> t.waits[i] in t.waits;
    }
    assert forall j :: 0 <= j < t.attempts - 1 ==> answers(j).Exited? && answers(j).returnCode != 0 by {
      assert forall j :: 0 <= j < t.attempts - 1 ==> Retriable(call(j));
    }
    assert t.result == CheckoutAttempt(bin, bid, path, fixed, answers(t.attempts - 1));
    t
  }

  /** A timeout or a failure to start the tool is not retried. */
  lemma CheckoutOtherErrorsNotRetried(bin: string, bid: string, path: string, fixed: bool, answers: nat -> Outcome)
    requires !answers(0).Exited?
    ensures Checkout(bin, bid, path, fixed, answers).attempts == 1
    ensures Checkout(bin, bid, path, fixed, answers).result.Err?
  {
  }

  /** Three nonzero exits in a row: the third one's exception reaches the
      caller. */
  lemma {:induction false} CheckoutGivesUp(bin: string, bid: string, path: string, fixed: bool, answers: nat -> Outcome)
    requires forall k :: 0 <= k < 3 ==> answers(k).Exited? && answers(k).returnCode != 0
    ensures Checkout(bin, bid, path, fixed, answers).attempts == 3
    ensures Checkout(bin, bid, path, fixed, answers).result == Err(CalledProcessError(answers(2).returnCode))
  {
    var call := (k: nat) => CheckoutAttempt(bin, bid, path, fixed, answers(k));
    assert forall i :: 0 <= i < 3 ==> Retriable(call(i));
    RetryGivesUp(call, CheckoutPolicy);
  }

  /** `compile` refuses for every path, without running anything. */
  function Compile(path: string): (r: Result<bool>)
    ensures r.Err? && r.error.NotImplementedError?
  {
    Err(NotImplementedError("GitBug-Java does not support compilation of bugs, only execution of the entire test pipeline."))
  }

  /** The test environment: the benchmark directory and its `bin` put in
      front of the inherited `PATH`; reading an unset `PATH` raises. */
  function OverlayPath(env: map<string, string>, benchPath: string): (r: Result<map<string, string>>)
    ensures r.Ok? <==> "PATH" in env
    ensures r.Err? ==> r.error == KeyError("PATH")
    ensures r.Ok? ==> r.value.Keys == env.Keys
    ensures r.Ok? ==> forall k :: k in env && k != "PATH" ==> r.value[k] == env[k]
    ensures r.Ok? ==> StartsWith(r.value["PATH"], benchPath + ":" + benchPath + "/bin:")
    ensures r.Ok? ==> EndsWith(r.value["PATH"], ":" + env["PATH"])
    ensures r.Ok? ==> |r.value["PATH"]| == 2 * |benchPath| + 6 + |env["PATH"]|
  {
    if "PATH" !in env then Err(KeyError("PATH"))
    else
      var head := benchPath + ":" + benchPath + "/bin:";
      var path := head + env["PATH"];
      assert path[..|head|] == head;
      assert path[|path| - |":" + env["PATH"]|..] == ":" + env["PATH"];
      Ok(env["PATH" := path])
  }

  /** With a benchmark path free of `:`, the new search path lists the
      benchmark directory, then its `bin`, then every entry of the old one. */
  lemma OverlayPathEntries(env: map<string, string>, benchPath: string)
    requires "PATH" in env && ':' !in benchPath
    ensures OverlayPath(env, benchPath).Ok?
    ensures Split(OverlayPath(env, benchPath).value["PATH"], ':')
              == [benchPath, benchPath + "/bin"] + Split(env["PATH"], ':')
  {
    var prev, bin := env["PATH"], benchPath + "/bin";
    var path := OverlayPath(env, benchPath).value["PATH"];
    assert ':' !in bin by {
      assert forall k :: 0 <= k < |bin| ==> bin[k] == (if k < |benchPath| then benchPath[k] else "/bin"[k - |benchPath|]);
    }
    assert path == benchPath + [':'] + (bin + [':'] + prev);
    SplitField(benchPath, bin + [':'] + prev, ':');
    SplitField(bin, prev, ':');
  }

  /** The searched-for text of `Failing tests: ([0-9]+)`. */
  const FailingMarker := "Failing tests: "

  /** The pattern matches at `i`: the marker followed by at least one digit. */
  predicate FailingMatchAt(s: string, i: nat) {
    OccursAt(s, FailingMarker, i) && i + |FailingMarker| < |s| && IsDigit(s[i + |FailingMarker|])
  }

  /** `re.search` for the pattern from position `from`: the leftmost match. */
  function SearchFailing(s: string, from: nat): (r: Option<nat>)
    requires from <= |s|
    ensures r.Some? ==> from <= r.value < |s| && FailingMatchAt(s, r.value)
    ensures r.Some? ==> forall i :: from <= i < r.value ==> !FailingMatchAt(s, i)
    ensures r.None? ==> forall i :: from <= i ==> !FailingMatchAt(s, i)
    decreases |s| - from
  {
    if FailingMatchAt(s, from) then Some(from)
    else if from == |s| then None
    else SearchFailing(s, from + 1)
  }

  /** The greedy `[0-9]+` starting at `j`: the longest run of digits there. */
  function DigitRun(s: string, j: nat): (r: string)
    requires j <= |s|
    ensures j + |r| <= |s| && r == s[j..j + |r|]
    ensures forall k :: 0 <= k < |r| ==> IsDigit(r[k])
    ensures j + |r| < |s| ==> !IsDigit(s[j + |r|])
    decreases |s| - j
  {
    if j < |s| && IsDigit(s[j]) then [s[j]] + DigitRun(s, j + 1) else []
  }

  /** `int(m.group(1))` for the first match, or `None` when nothing matches. */
  function FailingTests(stdout: string): (r: Option<nat>)
    ensures r.Some? <==> exists i :: 0 <= i <= |stdout| && FailingMatchAt(stdout, i)
  {
    match SearchFailing(stdout, 0)
    case None => None
    case Some(i) => Some(DecimalValue(DigitRun(stdout, i + |FailingMarker|)))
  }

  /** Any maximal run of digits at `j` is the one `DigitRun` finds. */
  lemma {:induction false} DigitRunUnique(s: string, j: nat, t: string)
    requires j + |t| <= |s| && t == s[j..j + |t|]
    requires forall k :: 0 <= k < |t| ==> IsDigit(t[k])
    requires j + |t| < |s| ==> !IsDigit(s[j + |t|])
    ensures DigitRun(s, j) == t
    decreases |t|
  {
    if |t| > 0 {
      assert s[j] == t[0];
      DigitRunUnique(s, j + 1, t[1..]);
    }
  }

  /** A report that starts with `Failing tests: N` is read as `N`. */
  lemma FailingTestsRoundTrip(n: nat, rest: string)
    requires |rest| == 0 || !IsDigit(rest[0])
    ensures FailingTests(FailingMarker + NatToDecimal(n) + rest) == Some(n)
  {
    var d := NatToDecimal(n);
    var m := |FailingMarker|;
    var s := FailingMarker + d + rest;
    assert FailingMatchAt(s, 0) by {
      assert s[..m] == FailingMarker;
      assert s[m] == d[0];
    }
    assert SearchFailing(s, 0) == Some(0);
    assert DigitRun(s, m) == d by {
      assert s[m..m + |d|] == d;
      assert m + |d| < |s| ==> s[m + |d|] == rest[0];
      DigitRunUnique(s, m, d);
    }
    assert DecimalValue(d) == n by {
      DecimalRoundTrip(n);
    }
  }

  /** `test`: build the environment, run the tool once under the timeout,
      and pass exactly when it exits with 0 and the first report of failing
      tests says none. A timeout is a failed test, not an exception. */
  function Test(bin: string, benchPath: string, path: string, env: map<string, string>, o: Outcome): (r: Result<bool>)
    ensures r.Err? <==> "PATH" !in env || o.StartFailed?
    ensures r.Err? && "PATH" !in env ==> r.error == KeyError("PATH")
    ensures r.Ok? ==> (r.value <==> o.Exited? && o.returnCode == 0 && FailingTests(o.stdout) == Some(0))
    ensures "PATH" in env && o.TimedOut? ==> r == Ok(false)
  {
    var env' :- OverlayPath(env, benchPath);
    var req := Request(bin + " run " + path, Some(env'), Some(TestTimeout), false);
    match Run(req, o)
    case Err(e) => if e.TimeoutExpired? then Ok(false) else Err(e)
    case Ok(run) => Ok(run.returnCode == 0 && FailingTests(run.stdout) == Some(0))
  }

  /** A report of zero failing tests counts however many zeros it has. */
  lemma TestPassesOnZeroReport(bin: string, benchPath: string, path: string, env: map<string, string>,
                               zeros: string, rest: string)
    requires "PATH" in env && |zeros| > 0 && forall k :: 0 <= k < |zeros| ==> zeros[k] == '0'
    requires |rest| == 0 || !IsDigit(rest[0])
    ensures Test(bin, benchPath, path, env, Exited(0, FailingMarker + zeros + rest)) == Ok(true)
  {
    var s := FailingMarker + zeros + rest;
    assert s[..|FailingMarker|] == FailingMarker;
    assert s[|FailingMarker|] == zeros[0];
    assert FailingMatchAt(s, 0);
    assert s[|FailingMarker|..|FailingMarker| + |zeros|] == zeros;
    DigitRunUnique(s, |FailingMarker|, zeros);
    DecimalValueZero(zeros);
  }
}
