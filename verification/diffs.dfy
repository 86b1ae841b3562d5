/** The parsed shape of a unified diff (what `unidiff.PatchSet` yields) and
    the two classifiers of a sample's ground truth: single hunk and single
    chunk. Parsing itself is left to the caller: a `Patch` is the input. */
module Diffs {

  datatype LineKind = Added | Removed | Context

  datatype DiffLine = DiffLine(kind: LineKind, value: string)

  /** One `@@ ... @@` hunk: its lines in order. */
  datatype Hunk = Hunk(lines: seq<DiffLine>)

  /** One file of the patch: its hunks in order. */
  datatype PatchedFile = PatchedFile(path: string, hunks: seq<Hunk>)

  type Patch = seq<PatchedFile>

  /** `is_added or is_removed`. */
  predicate IsChange(l: DiffLine) {
    l.kind == Added || l.kind == Removed
  }

  /** `len(diff) == 1 and len(diff[0]) == 1`. */
  predicate IsSingleHunk(p: Patch) {
    |p| == 1 && |p[0].hunks| == 1
  }

  /** The only hunk of a single-hunk patch. */
  function TheHunk(p: Patch): Hunk
    requires IsSingleHunk(p)
  {
    p[0].hunks[0]
  }

  /** The changed lines among the first `n` lines form one contiguous block:
      no context line sits between two changed lines. */
  predicate ContiguousUpTo(lines: seq<DiffLine>, n: nat)
    requires n <= |lines|
  {
    forall a, b, c :: 0 <= a < b < c < n && IsChange(lines[a]) && IsChange(lines[c]) ==> IsChange(lines[b])
  }

  /** Reference meaning of "single chunk": one file, one hunk, and the added
      and removed lines of that hunk form at most one maximal run. */
  predicate SingleChunk(p: Patch) {
    IsSingleHunk(p) && ContiguousUpTo(TheHunk(p).lines, |TheHunk(p).lines|)
  }

  /** `is_single_chunk`: one pass over the hunk that skips each run of
      changed lines and gives up on meeting a second one. */
  method IsSingleChunk(p: Patch) returns (r: bool)
    ensures r <==> SingleChunk(p)
  {
    if !(|p| == 1 && |p[0].hunks| == 1) {
      return false;
    }
    var hunk := p[0].hunks[0].lines;
    var i := 0;
    var foundChange := false;
    while i < |hunk|
      invariant 0 <= i <= |hunk|
      invariant foundChange <==> exists k :: 0 <= k < i && IsChange(hunk[k])
      invariant ContiguousUpTo(hunk, i)
      invariant 0 < i < |hunk| && IsChange(hunk[i - 1]) ==> !IsChange(hunk[i])
    {
      if IsChange(hunk[i]) {
        if foundChange {
          ghost var k :| 0 <= k < i && IsChange(hunk[k]);
          assert !IsChange(hunk[i - 1]);
          assert !ContiguousUpTo(hunk, |hunk|) by {
            assert k < i - 1 < i && IsChange(hunk[k]) && IsChange(hunk[i]);
          }
          return false;
        }
        foundChange := true;
        ghost var start := i;
        while i < |hunk| && IsChange(hunk[i])
          invariant start < i <= |hunk| || (start == i && IsChange(hunk[i]))
          invariant forall k :: start <= k < i ==> IsChange(hunk[k])
        {
          i := i + 1;
        }
        assert forall k :: 0 <= k < start ==> !IsChange(hunk[k]);
      } else {
        i := i + 1;
      }
    }
    return true;
  }

  /** A hunk with no added or removed line counts as a single chunk, and a
      single chunk is always a single hunk. */
  lemma SingleChunkFacts(p: Patch)
    ensures SingleChunk(p) ==> IsSingleHunk(p)
    ensures IsSingleHunk(p) && (forall k :: 0 <= k < |TheHunk(p).lines| ==> !IsChange(TheHunk(p).lines[k]))
            ==> SingleChunk(p)
  {
  }

  /** Line `i` opens a maximal run of changed lines. */
  predicate RunStart(lines: seq<DiffLine>, i: nat)
    requires i < |lines|
  {
    IsChange(lines[i]) && (i == 0 || !IsChange(lines[i - 1]))
  }

  /** Number of maximal runs of changed lines among the first `n` lines. */
  function RunCount(lines: seq<DiffLine>, n: nat): nat
    requires n <= |lines|
  {
    if n == 0 then 0
    else RunCount(lines, n - 1) + (if RunStart(lines, n - 1) then 1 else 0)
  }

  lemma {:induction false} NoRunsNoChanges(lines: seq<DiffLine>, n: nat)
    requires n <= |lines|
    ensures RunCount(lines, n) == 0 <==> forall k :: 0 <= k < n ==> !IsChange(lines[k])
  {
    if n > 0 {
      NoRunsNoChanges(lines, n - 1);
    }
  }

  /** Contiguity of the changed lines is the same as "at most one maximal run
      of changed lines". */
  lemma {:induction false} ContiguousIffOneRun(lines: seq<DiffLine>, n: nat)
    requires n <= |lines|
    ensures ContiguousUpTo(lines, n) <==> RunCount(lines, n) <= 1
  {
    if n > 0 {
      var m := n - 1;
      ContiguousIffOneRun(lines, m);
      if !IsChange(lines[m]) {
        assert ContiguousUpTo(lines, n) <==> ContiguousUpTo(lines, m);
      } else if m > 0 && IsChange(lines[m - 1]) {
        if ContiguousUpTo(lines, m) {
          forall a, b, c | 0 <= a < b < c < n && IsChange(lines[a]) && IsChange(lines[c])
            ensures IsChange(lines[b])
          {
            if c < m {
            } else if b < m - 1 {
              assert a < b < m - 1;
            }
          }
        }
      } else {
        NoRunsNoChanges(lines, m);
        if m > 0 && ContiguousUpTo(lines, n) {
          forall k | 0 <= k < m
            ensures !IsChange(lines[k])
          {
            assert !IsChange(lines[m - 1]) && IsChange(lines[m]);
          }
        }
      }
    }
  }
}
