/** A QuixBugs bug: checkout copies six files of the benchmark into a fresh
    workspace, and compilation and testing are Maven runs judged by their
    exit code. Files are a map from workspace-relative paths to contents. */
module QuixBugs {
  import opened Outcomes
  import opened Strings
  import opened Processes

  type FileMap = map<string, string>

  /** One `cp source target` of a checkout command. */
  datatype Copy = Copy(source: string, target: string)

  /** `java_programs/<name>.java`. */
  function ProgramFile(name: string): string {
    "java_programs/" + name + ".java"
  }

  /** `java_testcases/junit/<name>.java`. */
  function TestFile(name: string): string {
    "java_testcases/junit/" + name + ".java"
  }

  const Pom := "pom.xml"

  /** Where the program under repair comes from. */
  function SourcePath(id: string, fixed: bool): string {
    (if fixed then "correct_java_programs/" else "java_programs/") + id + ".java"
  }

  /** The copies of the first command: the program and its two helpers. */
  function SourceCopies(id: string, fixed: bool): seq<Copy> {
    [ Copy(SourcePath(id, fixed), ProgramFile(id)),
      Copy(ProgramFile("Node"), ProgramFile("Node")),
      Copy(ProgramFile("WeightedEdge"), ProgramFile("WeightedEdge")) ]
  }

  /** The copies of the second command: the test and its oracle helper. */
  function TestCopies(id: string): seq<Copy> {
    [ Copy(TestFile(id + "_TEST"), TestFile(id + "_TEST")),
      Copy(TestFile("QuixFixOracleHelper"), TestFile("QuixFixOracleHelper")) ]
  }

  /** The copy of the third command. */
  const PomCopies := [Copy(Pom, Pom)]

  /** The six files a checkout is meant to produce. */
  function Workspace(id: string): set<string> {
    { ProgramFile(id), ProgramFile("Node"), ProgramFile("WeightedEdge"),
      TestFile(id + "_TEST"), TestFile("QuixFixOracleHelper"), Pom }
  }

  /** The benchmark files the six copies read. */
  function Required(id: string, fixed: bool): set<string> {
    { SourcePath(id, fixed), ProgramFile("Node"), ProgramFile("WeightedEdge"),
      TestFile(id + "_TEST"), TestFile("QuixFixOracleHelper"), Pom }
  }

  /** Different names give different program files. */
  lemma ProgramFileInjective(a: string, b: string)
    ensures ProgramFile(a) == ProgramFile(b) ==> a == b
  {
    if ProgramFile(a) == ProgramFile(b) {
      assert a == ProgramFile(a)[14..14 + |a|];
      assert b == ProgramFile(b)[14..14 + |b|];
    }
  }

  /** Different names give different test files. */
  lemma TestFileInjective(a: string, b: string)
    ensures TestFile(a) == TestFile(b) ==> a == b
  {
    if TestFile(a) == TestFile(b) {
      assert a == TestFile(a)[21..21 + |a|];
      assert b == TestFile(b)[21..21 + |b|];
    }
  }

  /** Program files, test files and `pom.xml` never coincide: they differ
      in their sixth character. */
  lemma DirectoriesDiffer(a: string, b: string)
    ensures ProgramFile(a) != TestFile(b) && ProgramFile(a) != Pom && TestFile(b) != Pom
  {
    assert ProgramFile(a)[5] == 'p' && TestFile(b)[5] == 't' && Pom[5] == 'm';
  }

  /** Run the copies of one shell command in order. `cp` of a missing file
      exits with 1 and copies nothing. Joined with `&&` the command stops at
      the first failure; joined with `;` every copy runs and the command's
      status is that of its last copy. */
  function CopyAll(bench: FileMap, ws: FileMap, copies: seq<Copy>, andChain: bool): (r: (bool, FileMap))
    decreases |copies|
  {
    if |copies| == 0 then (true, ws)
    else
      var c := copies[0];
      var ok := c.source in bench;
      var ws' := if ok then ws[c.target := bench[c.source]] else ws;
      if !ok && andChain then (false, ws)
      else if |copies| == 1 then (ok, ws')
      else CopyAll(bench, ws', copies[1..], andChain)
  }

  /** The targets of some copies. */
  function Targets(copies: seq<Copy>): set<string> {
    set k | 0 <= k < |copies| :: copies[k].target
  }

  /** No two copies write the same file. */
  predicate DistinctTargets(copies: seq<Copy>) {
    forall i, j :: 0 <= i < j < |copies| ==> copies[i].target != copies[j].target
  }

  /** The targets of a non-empty list of copies: the first one's and the rest's. */
  lemma TargetsCons(copies: seq<Copy>)
    requires |copies| > 0
    ensures Targets(copies) == {copies[0].target} + Targets(copies[1..])
  {
    var tail := copies[1..];
    forall t | t in Targets(copies) ensures t in {copies[0].target} + Targets(tail) {
      var k :| 0 <= k < |copies| && copies[k].target == t;
      if k > 0 { assert tail[k - 1] == copies[k]; }
    }
    forall t | t in Targets(tail) ensures t in Targets(copies) {
      var k :| 0 <= k < |tail| && tail[k].target == t;
      assert copies[k + 1] == tail[k];
    }
  }

  /** Without its first copy a list of distinct copies stays distinct, and
      the first target is not among the rest. */
  lemma DistinctCons(copies: seq<Copy>)
    requires |copies| > 0 && DistinctTargets(copies)
    ensures DistinctTargets(copies[1..]) && copies[0].target !in Targets(copies[1..])
  {
    var tail := copies[1..];
    forall i, j | 0 <= i < j < |tail| ensures tail[i].target != tail[j].target {
      assert copies[i + 1].target != copies[j + 1].target;
    }
    forall k | 0 <= k < |tail| ensures tail[k].target != copies[0].target {
      assert copies[0].target != copies[k + 1].target;
    }
  }

  /** An `&&` command succeeds exactly when every source exists. */
  lemma {:induction false} AndChainStatus(bench: FileMap, ws: FileMap, copies: seq<Copy>)
    ensures CopyAll(bench, ws, copies, true).0 <==> forall k :: 0 <= k < |copies| ==> copies[k].source in bench
    decreases |copies|
  {
    if |copies| > 0 {
      var c := copies[0];
      var tail := copies[1..];
      if c.source in bench && |copies| > 1 {
        AndChainStatus(bench, ws[c.target := bench[c.source]], tail);
        assert forall k :: 0 <= k < |tail| ==> tail[k] == copies[k + 1];
      }
    }
  }

  /** An `&&` command whose sources all exist adds exactly its targets,
      each with its source's contents when no two copies share a target,
      and keeps every other file. */
  lemma {:induction false} AndChainWrites(bench: FileMap, ws: FileMap, copies: seq<Copy>)
    requires forall k :: 0 <= k < |copies| ==> copies[k].source in bench
    ensures var r := CopyAll(bench, ws, copies, true).1;
      r.Keys == ws.Keys + Targets(copies)
    ensures var r := CopyAll(bench, ws, copies, true).1;
      DistinctTargets(copies) ==> forall k :: 0 <= k < |copies| ==> r[copies[k].target] == bench[copies[k].source]
    ensures var r := CopyAll(bench, ws, copies, true).1;
      forall t :: t in ws && t !in Targets(copies) ==> r[t] == ws[t]
    decreases |copies|
  {
    if |copies| > 0 {
      var c := copies[0];
      var tail := copies[1..];
      TargetsCons(copies);
      var ws' := ws[c.target := bench[c.source]];
      if |copies| > 1 {
        AndChainWrites(bench, ws', tail);
        assert forall k :: 0 <= k < |tail| ==> tail[k] == copies[k + 1];
        if DistinctTargets(copies) {
          DistinctCons(copies);
        }
      }
    }
  }

  /** An `&&` command succeeds exactly when every source exists, and then
      adds exactly its targets, each with its source's contents. */
  lemma AndChainCopies(bench: FileMap, ws: FileMap, copies: seq<Copy>)
    ensures var r := CopyAll(bench, ws, copies, true);
      r.0 <==> forall k :: 0 <= k < |copies| ==> copies[k].source in bench
    ensures var r := CopyAll(bench, ws, copies, true);
      r.0 ==> r.1.Keys == ws.Keys + Targets(copies)
    ensures var r := CopyAll(bench, ws, copies, true);
      r.0 && DistinctTargets(copies) ==> forall k :: 0 <= k < |copies| ==> r.1[copies[k].target] == bench[copies[k].source]
    ensures var r := CopyAll(bench, ws, copies, true);
      r.0 ==> forall t :: t in ws && t !in Targets(copies) ==> r.1[t] == ws[t]
  {
    AndChainStatus(bench, ws, copies);
    if CopyAll(bench, ws, copies, true).0 {
      AndChainWrites(bench, ws, copies);
    }
  }

  /** A `;` command's status is the last copy's: it succeeds whenever the
      last source exists, whatever happened to the earlier copies. */
  lemma {:induction false} SemicolonChainStatus(bench: FileMap, ws: FileMap, copies: seq<Copy>)
    requires |copies| > 0
    ensures var r := CopyAll(bench, ws, copies, false);
      && (r.0 <==> copies[|copies| - 1].source in bench)
      && (r.0 ==> copies[|copies| - 1].target in r.1)
      && r.1.Keys <= ws.Keys + Targets(copies)
    decreases |copies|
  {
    var c := copies[0];
    var ws' := if c.source in bench then ws[c.target := bench[c.source]] else ws;
    TargetsCons(copies);
    if |copies| > 1 {
      var tail := copies[1..];
      SemicolonChainStatus(bench, ws', tail);
      assert tail[|tail| - 1] == copies[|copies| - 1];
    }
  }

  /** One `subprocess.run(cmd, shell=True, check=True)` of a copying
      command: a nonzero status raises. */
  function RunCommand(bench: FileMap, ws: FileMap, copies: seq<Copy>, andChain: bool): (r: Result<FileMap>)
    ensures r.Err? ==> r.error == CalledProcessError(1)
  {
    var (ok, ws') := CopyAll(bench, ws, copies, andChain);
    if ok then Ok(ws') else Err(CalledProcessError(1))
  }

  /** `checkout` with its three commands joined as given: the old workspace
      `previous` is removed first, so it plays no part. */
  function CheckoutWith(previous: FileMap, bench: FileMap, id: string, fixed: bool, andChain: bool): (r: Result<(bool, FileMap)>)
    ensures r.Ok? ==> r.value.0
    ensures r.Err? ==> r.error == CalledProcessError(1)
  {
    var ws1 :- RunCommand(bench, map[], SourceCopies(id, fixed), andChain);
    var ws2 :- RunCommand(bench, ws1, TestCopies(id), andChain);
    var ws3 :- RunCommand(bench, ws2, PomCopies, andChain);
    Ok((true, ws3))
  }

  /** The `;` checkout command by command: each command's status is its
      last copy's. */
  lemma SemicolonCheckoutFacts(previous: FileMap, bench: FileMap, id: string, fixed: bool)
    ensures var r := CheckoutWith(previous, bench, id, fixed, false);
      && (r.Ok? <==> {ProgramFile("WeightedEdge"), TestFile("QuixFixOracleHelper"), Pom} <= bench.Keys)
      && (r.Ok? ==> r.value.1.Keys <= Workspace(id))
  {
    var empty: FileMap := map[];
    var s1, s2, s3 := SourceCopies(id, fixed), TestCopies(id), PomCopies;
    var (ok1, ws1) := CopyAll(bench, empty, s1, false);
    var (ok2, ws2) := CopyAll(bench, ws1, s2, false);
    var (ok3, ws3) := CopyAll(bench, ws2, s3, false);
    assert (ok1 <==> ProgramFile("WeightedEdge") in bench) && ws1.Keys <= Targets(s1) by {
      SemicolonChainStatus(bench, empty, s1);
    }
    assert (ok2 <==> TestFile("QuixFixOracleHelper") in bench) && ws2.Keys <= ws1.Keys + Targets(s2) by {
      SemicolonChainStatus(bench, ws1, s2);
    }
    assert (ok3 <==> Pom in bench) && ws3.Keys <= ws2.Keys + Targets(s3) by {
      SemicolonChainStatus(bench, ws2, s3);
    }
    assert Targets(s1) + Targets(s2) + Targets(s3) <= Workspace(id) by {
      SourceTargets(id, fixed);
      TestTargets(id);
      PomTargets();
    }
    assert CheckoutWith(previous, bench, id, fixed, false)
        == if ok1 && ok2 && ok3 then Ok((true, ws3)) else Err(CalledProcessError(1));
  }

  /** `checkout` as written: each command's copies are joined with `;`, so
      only the helper, the oracle helper and `pom.xml` are checked; it can
      return `True` with the program or its test missing. */
  function CheckoutAsWritten(previous: FileMap, bench: FileMap, id: string, fixed: bool): (r: Result<(bool, FileMap)>)
    ensures r.Ok? <==> {ProgramFile("WeightedEdge"), TestFile("QuixFixOracleHelper"), Pom} <= bench.Keys
    ensures r.Ok? ==> r.value.1.Keys <= Workspace(id)
  {
    SemicolonCheckoutFacts(previous, bench, id, fixed);
    CheckoutWith(previous, bench, id, fixed, false)
  }

  /** The counterexample: `gcd` checked out from a benchmark that lacks
      `java_programs/gcd.java` returns `True`, and the workspace has no
      program. */
  lemma AsWrittenCheckoutMissesProgram()
    ensures var bench := map[
        ProgramFile("Node") := "", ProgramFile("WeightedEdge") := "",
        TestFile("gcd_TEST") := "", TestFile("QuixFixOracleHelper") := "",
        Pom := ""];
      var r := CheckoutAsWritten(map[], bench, "gcd", false);
      && SourcePath("gcd", false) !in bench
      && r == Ok((true, r.value.1))
      && ProgramFile("gcd") !in r.value.1
  {
    var bench := map[
        ProgramFile("Node") := "", ProgramFile("WeightedEdge") := "",
        TestFile("gcd_TEST") := "", TestFile("QuixFixOracleHelper") := "",
        Pom := ""];
    var p := ProgramFile("gcd");
    assert SourcePath("gcd", false) == p;
    ProgramFileInjective("gcd", "Node");
    ProgramFileInjective("gcd", "WeightedEdge");
    DirectoriesDiffer("gcd", "gcd_TEST");
    DirectoriesDiffer("gcd", "QuixFixOracleHelper");
    assert p !in bench;
    var empty: FileMap := map[];
    var s1, s2 := SourceCopies("gcd", false), TestCopies("gcd");
    var ws1 := CopyAll(bench, empty, s1, false).1;
    assert ws1.Keys == {ProgramFile("Node"), ProgramFile("WeightedEdge")} by {
      assert CopyAll(bench, empty, s1, false) == CopyAll(bench, empty, s1[1..], false);
    }
    var ws2 := CopyAll(bench, ws1, s2, false).1;
    assert ws2.Keys == ws1.Keys + {TestFile("gcd_TEST"), TestFile("QuixFixOracleHelper")} by {
      assert "gcd" + "_TEST" == "gcd_TEST";
      assert CopyAll(bench, ws1, s2, false) == CopyAll(bench, ws1[s2[0].target := ""], s2[1..], false);
    }
    var ws3 := CopyAll(bench, ws2, PomCopies, false).1;
    assert ws3.Keys == ws2.Keys + {Pom};
    assert CheckoutWith(map[], bench, "gcd", false, false) == Ok((true, ws3));
  }

  /** The files each command writes. */
  lemma SourceTargets(id: string, fixed: bool)
    ensures Targets(SourceCopies(id, fixed)) == {ProgramFile(id), ProgramFile("Node"), ProgramFile("WeightedEdge")}
  {
    var s := SourceCopies(id, fixed);
    assert s[0].target in Targets(s) && s[1].target in Targets(s) && s[2].target in Targets(s);
  }

  lemma TestTargets(id: string)
    ensures Targets(TestCopies(id)) == {TestFile(id + "_TEST"), TestFile("QuixFixOracleHelper")}
  {
    var s := TestCopies(id);
    assert s[0].target in Targets(s) && s[1].target in Targets(s);
  }

  lemma PomTargets()
    ensures Targets(PomCopies) == {Pom}
  {
    assert PomCopies[0].target in Targets(PomCopies);
  }

  /** Every source of the three commands exists exactly when the required
      files are in the benchmark. */
  lemma RequiredSources(bench: FileMap, id: string, fixed: bool)
    ensures Required(id, fixed) <= bench.Keys <==>
      && (forall k :: 0 <= k < |SourceCopies(id, fixed)| ==> SourceCopies(id, fixed)[k].source in bench)
      && (forall k :: 0 <= k < |TestCopies(id)| ==> TestCopies(id)[k].source in bench)
      && (forall k :: 0 <= k < |PomCopies| ==> PomCopies[k].source in bench)
  {
    var s1, s2 := SourceCopies(id, fixed), TestCopies(id);
    assert Required(id, fixed) == {s1[0].source, s1[1].source, s1[2].source, s2[0].source, s2[1].source, PomCopies[0].source};
  }

  /** The `&&` checkout command by command. */
  lemma {:induction false} AndCheckoutFacts(bench: FileMap, id: string, fixed: bool)
    ensures var r := CheckoutWith(map[], bench, id, fixed, true);
      && (r.Ok? <==> Required(id, fixed) <= bench.Keys)
      && (r.Ok? ==> r.value.1.Keys == Workspace(id))
  {
    var empty: FileMap := map[];
    var s1, s2, s3 := SourceCopies(id, fixed), TestCopies(id), PomCopies;
    RequiredSources(bench, id, fixed);
    AndChainCopies(bench, empty, s1);
    SourceTargets(id, fixed);
    var ws1 := CopyAll(bench, empty, s1, true).1;
    AndChainCopies(bench, ws1, s2);
    TestTargets(id);
    var ws2 := CopyAll(bench, ws1, s2, true).1;
    AndChainCopies(bench, ws2, s3);
    PomTargets();
  }

  /** `checkout` with each command's copies joined with `&&`, so that
      `check=True` sees every failed copy: it returns exactly when every
      source exists, and the workspace then holds exactly the six files. */
  function Checkout(previous: FileMap, bench: FileMap, id: string, fixed: bool): (r: Result<(bool, FileMap)>)
    ensures r.Ok? <==> Required(id, fixed) <= bench.Keys
    ensures r.Ok? ==> r.value == (true, r.value.1) && r.value.1.Keys == Workspace(id)
    ensures r.Err? ==> r.error == CalledProcessError(1)
  {
    AndCheckoutFacts(bench, id, fixed);
    CheckoutWith(previous, bench, id, fixed, true)
  }

  /** A helper named like the program is overwritten by its copy, so the
      program's contents are only guaranteed for other names. */
  predicate DistinctFromHelpers(id: string) {
    id != "Node" && id != "WeightedEdge"
  }

  /** The first command writes three different files. */
  lemma SourceCopiesDistinct(id: string, fixed: bool)
    requires DistinctFromHelpers(id)
    ensures DistinctTargets(SourceCopies(id, fixed))
  {
    ProgramFileInjective(id, "Node");
    ProgramFileInjective(id, "WeightedEdge");
    ProgramFileInjective("Node", "WeightedEdge");
    assert "Node" != "WeightedEdge" by {
      assert |"Node"| != |"WeightedEdge"|;
    }
  }

  /** The second command writes two different files. */
  lemma TestCopiesDistinct(id: string)
    ensures DistinctTargets(TestCopies(id))
  {
    var t, h := id + "_TEST", "QuixFixOracleHelper";
    TestFileInjective(t, h);
    assert t[|t| - 1] != h[|h| - 1];
  }

  /** The test files lie in another directory than the program files. */
  lemma TestsAvoidSources(id: string, fixed: bool)
    ensures Targets(TestCopies(id)) !! Targets(SourceCopies(id, fixed))
  {
    SourceTargets(id, fixed);
    TestTargets(id);
    DirectoriesDiffer(id, id + "_TEST");
    DirectoriesDiffer(id, "QuixFixOracleHelper");
    DirectoriesDiffer("Node", id + "_TEST");
    DirectoriesDiffer("Node", "QuixFixOracleHelper");
    DirectoriesDiffer("WeightedEdge", id + "_TEST");
    DirectoriesDiffer("WeightedEdge", "QuixFixOracleHelper");
  }

  /** `pom.xml` is written by the third command only. */
  lemma PomAvoidsOthers(id: string, fixed: bool)
    ensures Pom !in Targets(SourceCopies(id, fixed)) && Pom !in Targets(TestCopies(id))
  {
    SourceTargets(id, fixed);
    TestTargets(id);
    DirectoriesDiffer(id, id + "_TEST");
    DirectoriesDiffer("Node", "QuixFixOracleHelper");
    DirectoriesDiffer("WeightedEdge", "QuixFixOracleHelper");
  }

  /** No file is written by two of the three commands. */
  lemma CommandsWriteDistinctFiles(id: string, fixed: bool)
    ensures Targets(TestCopies(id)) !! Targets(SourceCopies(id, fixed))
    ensures Pom !in Targets(SourceCopies(id, fixed)) && Pom !in Targets(TestCopies(id))
  {
    TestsAvoidSources(id, fixed);
    PomAvoidsOthers(id, fixed);
  }

  /** Every file of `ws` holds what the benchmark holds at its source: the
      program file at the path `fixed` chooses, every other file at the
      same path. */
  predicate FromBenchmark(bench: FileMap, id: string, fixed: bool, ws: FileMap) {
    forall t :: t in ws ==>
      if t == ProgramFile(id) then SourcePath(id, fixed) in bench && ws[t] == bench[SourcePath(id, fixed)]
      else t in bench && ws[t] == bench[t]
  }

  /** A copy that writes the program from the chosen side, or any other file
      from the same path. */
  predicate FaithfulCopy(id: string, fixed: bool, c: Copy) {
    c.source == if c.target == ProgramFile(id) then SourcePath(id, fixed) else c.target
  }

  /** Faithful copies, joined either way, keep a workspace's files equal to
      the benchmark's. */
  lemma {:induction false} CopyAllFromBenchmark(bench: FileMap, ws: FileMap, copies: seq<Copy>, andChain: bool, id: string, fixed: bool)
    requires FromBenchmark(bench, id, fixed, ws)
    requires forall k :: 0 <= k < |copies| ==> FaithfulCopy(id, fixed, copies[k])
    ensures FromBenchmark(bench, id, fixed, CopyAll(bench, ws, copies, andChain).1)
    decreases |copies|
  {
    if |copies| > 0 {
      var c := copies[0];
      assert FaithfulCopy(id, fixed, c);
      var ws' := if c.source in bench then ws[c.target := bench[c.source]] else ws;
      assert FromBenchmark(bench, id, fixed, ws');
      if |copies| > 1 {
        var tail := copies[1..];
        assert forall k :: 0 <= k < |tail| ==> tail[k] == copies[k + 1];
        CopyAllFromBenchmark(bench, ws', tail, andChain, id, fixed);
      }
    }
  }

  /** The copies of all three commands are faithful. */
  lemma CommandsFaithful(id: string, fixed: bool)
    requires DistinctFromHelpers(id)
    ensures forall k :: 0 <= k < |SourceCopies(id, fixed)| ==> FaithfulCopy(id, fixed, SourceCopies(id, fixed)[k])
    ensures forall k :: 0 <= k < |TestCopies(id)| ==> FaithfulCopy(id, fixed, TestCopies(id)[k])
    ensures forall k :: 0 <= k < |PomCopies| ==> FaithfulCopy(id, fixed, PomCopies[k])
  {
    ProgramFileInjective(id, "Node");
    ProgramFileInjective(id, "WeightedEdge");
    DirectoriesDiffer(id, id + "_TEST");
    DirectoriesDiffer(id, "QuixFixOracleHelper");
  }

  /** Whichever way the commands are joined, every file a successful
      checkout leaves holds its source's contents: the program from
      `correct_java_programs` exactly when `fixed`, every other file from
      the same path in the benchmark. */
  lemma CheckoutWithContents(previous: FileMap, bench: FileMap, id: string, fixed: bool, andChain: bool)
    requires DistinctFromHelpers(id) && CheckoutWith(previous, bench, id, fixed, andChain).Ok?
    ensures FromBenchmark(bench, id, fixed, CheckoutWith(previous, bench, id, fixed, andChain).value.1)
  {
    var empty: FileMap := map[];
    var s1, s2, s3 := SourceCopies(id, fixed), TestCopies(id), PomCopies;
    CommandsFaithful(id, fixed);
    var ws1 := CopyAll(bench, empty, s1, andChain).1;
    CopyAllFromBenchmark(bench, empty, s1, andChain, id, fixed);
    var ws2 := CopyAll(bench, ws1, s2, andChain).1;
    CopyAllFromBenchmark(bench, ws1, s2, andChain, id, fixed);
    CopyAllFromBenchmark(bench, ws2, s3, andChain, id, fixed);
    assert CheckoutWith(previous, bench, id, fixed, andChain).value.1 == CopyAll(bench, ws2, s3, andChain).1;
  }

  /** After a successful `&&` checkout every file of the workspace holds its
      source's contents: the program from the side `fixed` chooses,
      everything else from the same path in the benchmark. */
  lemma CheckoutContents(previous: FileMap, bench: FileMap, id: string, fixed: bool)
    requires DistinctFromHelpers(id) && Checkout(previous, bench, id, fixed).Ok?
    ensures var ws := Checkout(previous, bench, id, fixed).value.1;
      && ws[ProgramFile(id)] == bench[SourcePath(id, fixed)]
      && forall t :: t in Workspace(id) && t != ProgramFile(id) ==> t in bench && ws[t] == bench[t]
  {
    CheckoutWithContents(previous, bench, id, fixed, true);
  }

  /** Whichever way the commands are joined, `fixed` changes only where the
      program comes from: every other file both versions of the workspace
      hold has the same contents in each. */
  lemma CheckoutFixedOnlyChangesProgram(previous: FileMap, bench: FileMap, id: string, andChain: bool)
    requires DistinctFromHelpers(id)
    requires CheckoutWith(previous, bench, id, true, andChain).Ok? && CheckoutWith(previous, bench, id, false, andChain).Ok?
    ensures forall t :: (t in CheckoutWith(previous, bench, id, true, andChain).value.1
                      && t in CheckoutWith(previous, bench, id, false, andChain).value.1 && t != ProgramFile(id)) ==>
      CheckoutWith(previous, bench, id, true, andChain).value.1[t] == CheckoutWith(previous, bench, id, false, andChain).value.1[t]
  {
    CheckoutWithContents(previous, bench, id, true, andChain);
    CheckoutWithContents(previous, bench, id, false, andChain);
  }

  /** Whichever way the commands are joined, checking out twice gives the
      same files as once. This is immediate: the old workspace is removed
      first, so `previous` does not enter `CheckoutWith` at all. */
  lemma CheckoutIdempotent(previous: FileMap, bench: FileMap, id: string, fixed: bool, andChain: bool)
    requires CheckoutWith(previous, bench, id, fixed, andChain).Ok?
    ensures CheckoutWith(CheckoutWith(previous, bench, id, fixed, andChain).value.1, bench, id, fixed, andChain)
              == CheckoutWith(previous, bench, id, fixed, andChain)
  {
  }

  /** The `timeout` limits, in seconds, of the Maven runs. */
  const CompileTimeout: nat := 5 * 60
  const TestTimeout: nat := 30 * 60

  /** A Maven goal run in the workspace under the shell's `timeout`; the
      run is not checked, so only a failure to start raises. A run the
      shell's `timeout` stops is an ordinary nonzero exit. No timeout is
      passed to the run itself, so a `TimedOut` outcome cannot occur and the
      contract's `Err` for it is never reached. */
  function MavenVerdict(path: string, limit: nat, goal: string, o: Outcome): (r: Result<bool>)
    ensures r.Ok? <==> o.Exited?
    ensures r.Ok? ==> (r.value <==> o.returnCode == 0)
  {
    var req := Request("cd " + path + "; timeout " + NatToDecimal(limit) + " mvn " + goal, None, None, false);
    var run :- Run(req, o);
    Ok(run.returnCode == 0)
  }

  /** `compile`: succeeds exactly when `mvn compile` exits with 0. */
  function Compile(path: string, o: Outcome): (r: Result<bool>)
    ensures r.Ok? <==> o.Exited?
    ensures r.Ok? ==> (r.value <==> o.returnCode == 0)
  {
    MavenVerdict(path, CompileTimeout, "compile", o)
  }

  /** `test`: passes exactly when `mvn test` exits with 0. */
  function Test(path: string, o: Outcome): (r: Result<bool>)
    ensures r.Ok? <==> o.Exited?
    ensures r.Ok? ==> (r.value <==> o.returnCode == 0)
  {
    MavenVerdict(path, TestTimeout, "test", o)
  }
}
