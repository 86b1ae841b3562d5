/** The zero-shot cloze prompting strategy: each diff hunk in the source is
    replaced by a mask token that keeps the line's indentation, and the
    token is numbered for the models whose template has a `{}` slot. The
    strategy object's fields are an explicit state threaded through the
    calls. */
module Cloze {
  import opened Outcomes
  import opened Strings
  import opened Folds
  import opened Diffs
  import opened ClozeScan

  /** `MASK_DICT`: the mask template of each supported model. */
  const MaskDict: map<string, string> :=
    map["incoder" := "<|mask:{}|>", "plbart" := "<mask>", "codet5" := "<extra_id_{}>"]

  /** `'{}' in template`. */
  predicate HasSlot(template: string) {
    Contains(template, "{}")
  }

  /** `template.format(n) if '{}' in template else template`. The templates
      hold at most one `{}` and no other braces, so formatting is the
      replacement of the first `{}` by the decimal rendering of `n`. The
      token differs from the template exactly when there is a slot. */
  function MaskToken(template: string, n: nat): (r: string)
    ensures r == template <==> !HasSlot(template)
  {
    match IndexOf(template, "{}", 0)
    case None => template
    case Some(i) =>
      var d := NatToDecimal(n);
      var r := template[..i] + d + template[i + 2..];
      assert r != template by {
        if |d| == 2 {
          assert r[i] == d[0] && template[i] == '{';
        } else {
          assert |r| != |template|;
        }
      }
      r
  }

  /** Distinct numbers give distinct tokens when the template has a slot, so
      the tokens of successive hunks never collide. */
  lemma MaskTokenInjective(template: string, a: nat, b: nat)
    requires HasSlot(template)
    ensures MaskToken(template, a) == MaskToken(template, b) <==> a == b
  {
    var i := IndexOf(template, "{}", 0).value;
    var da, db := NatToDecimal(a), NatToDecimal(b);
    var ra, rb := MaskToken(template, a), MaskToken(template, b);
    if ra == rb {
      assert |da| == |db|;
      assert da == ra[i..i + |da|];
      assert db == rb[i..i + |db|];
      DecimalRoundTrip(a);
      DecimalRoundTrip(b);
    }
  }

  /** A token carries no line break unless its template does. */
  lemma MaskTokenSingleLine(template: string, n: nat)
    requires '\n' !in template
    ensures '\n' !in MaskToken(template, n)
  {
    match IndexOf(template, "{}", 0)
    case None =>
    case Some(i) =>
      var d := NatToDecimal(n);
      assert forall k :: 0 <= k < |d| ==> d[k] != '\n';
      assert forall k :: 0 <= k < |template| ==> template[k] != '\n';
  }

  /** The fields of `ZeroShotClozePrompting`. */
  datatype ClozeState = ClozeState(
    strictOneHunk: bool,
    originalMaskToken: Option<string>,
    preMaskToken: Option<string>,
    distance: Option<int>,
    maskTokenId: nat)

  /** The state `__init__` leaves. */
  const InitialState := ClozeState(false, None, None, None, 0)

  lemma {:induction false} LeadingWhitespaceConcat(a: string, b: string)
    requires forall k :: 0 <= k < |a| ==> IsSpace(a[k])
    requires |b| > 0 && !IsSpace(b[0])
    ensures LeadingWhitespace(a + b) == a
  {
    if |a| > 0 {
      assert (a + b)[0] == a[0];
      assert (a + b)[1..] == a[1..] + b;
      LeadingWhitespaceConcat(a[1..], b);
      assert a == [a[0]] + a[1..];
    }
  }

  /** `generate_masking_prompt`: the line's indentation followed by the
      token; the rest of the line is dropped. */
  function GenerateMaskingPrompt(line: string, mask: string): (r: string)
    ensures EndsWith(r, mask) && |r| <= |line| + |mask|
  {
    LeadingWhitespace(line) + mask
  }

  /** When the token starts with a visible character, the masking prompt has
      the line's indentation and stripping it leaves just the token. */
  lemma MaskingKeepsIndentation(line: string, mask: string)
    requires |mask| > 0 && !IsSpace(mask[0])
    ensures LeadingWhitespace(GenerateMaskingPrompt(line, mask)) == LeadingWhitespace(line)
    ensures LStrip(GenerateMaskingPrompt(line, mask)) == mask
  {
    LeadingWhitespaceConcat(LeadingWhitespace(line), mask);
  }

  /** The token-numbering step at the top of `one_hunk_prompt`: the token for
      this hunk, and the state with the counter advanced (and the previous
      token remembered) unless the strategy is strict. Nothing else in the
      state changes. */
  function BeginHunk(st: ClozeState, template: string): (r: (string, ClozeState))
    ensures r.1.maskTokenId == st.maskTokenId + (if st.strictOneHunk then 0 else 1)
    ensures r.1.(maskTokenId := st.maskTokenId, preMaskToken := st.preMaskToken) == st
    ensures st.strictOneHunk || st.maskTokenId == 0 ==> r.1.preMaskToken == st.preMaskToken
  {
    var mask := MaskToken(template, st.maskTokenId);
    if st.strictOneHunk then (mask, st)
    else
      var pre := if st.maskTokenId != 0 then Some(MaskToken(template, st.maskTokenId - 1)) else st.preMaskToken;
      (mask, st.(preMaskToken := pre, maskTokenId := st.maskTokenId + 1))
  }

  /** Two hunks in a row: the second remembers the first one's token as the
      previous token, and with a slotted template the two tokens differ. */
  lemma ConsecutiveHunks(st: ClozeState, template: string)
    requires !st.strictOneHunk
    ensures var (m1, s1) := BeginHunk(st, template);
      var (m2, s2) := BeginHunk(s1, template);
      && s2.preMaskToken == Some(m1)
      && (m1 != m2 <==> HasSlot(template))
  {
    var (m1, s1) := BeginHunk(st, template);
    var (m2, s2) := BeginHunk(s1, template);
    if HasSlot(template) {
      MaskTokenInjective(template, st.maskTokenId, st.maskTokenId + 1);
    }
  }

  /** Which branch of `one_hunk_prompt` runs: the fixed branch compares both
      sides left-stripped, the buggy branch leaves the hunk line as is. */
  datatype Side = FixedSide | BuggySide

  /** Everything one pass over the code lines depends on. `keys` holds what
      the stripped code line is compared with: the stripped hunk lines on the
      fixed side, the hunk lines as they are on the buggy side. */
  datatype Pass = Pass(side: Side, keys: seq<string>, mask: string, distance: Option<int>, preMask: Option<string>)

  /** A code line with its `lstrip()` and its `^\s*` indentation, each
      computed once rather than at every comparison. */
  datatype CodeLine = CodeLine(text: string, stripped: string, indent: string)

  function Line(s: string): CodeLine {
    CodeLine(s, LStrip(s), LeadingWhitespace(s))
  }

  /** What `Line` guarantees about its parts. */
  predicate WellFormedLine(l: CodeLine) {
    && l.indent + l.stripped == l.text
    && (forall i :: 0 <= i < |l.indent| ==> IsSpace(l.indent[i]))
    && (|l.stripped| > 0 ==> !IsSpace(l.stripped[0]))
  }

  lemma LineWellFormed(s: string)
    ensures Line(s).text == s && WellFormedLine(Line(s))
  {
  }

  /** `generate_masking_prompt` on a prepared line. */
  function MaskLine(l: CodeLine, mask: string): string {
    l.indent + mask
  }

  lemma MaskLineIsMaskingPrompt(s: string, mask: string)
    ensures MaskLine(Line(s), mask) == GenerateMaskingPrompt(s, mask)
  {
  }

  /** The comparison of a code line with hunk line `i`. */
  predicate Matches(pass: Pass, line: CodeLine, i: nat)
    requires i < |pass.keys|
  {
    line.stripped == pass.keys[i]
  }

  /** Python's `s[i]`, which counts from the end for a negative `i`. */
  function PyIndex<T>(s: seq<T>, i: int): (r: Result<T>)
    ensures r.Ok? <==> -|s| <= i < |s|
    ensures r.Ok? ==> r.value == s[if i >= 0 then i else |s| + i]
    ensures r.Err? ==> r.error == IndexError
  {
    if 0 <= i < |s| then Ok(s[i])
    else if -|s| <= i < 0 then Ok(s[|s| + i])
    else Err(IndexError)
  }

  /** What one loop iteration does: possibly emit a line, and possibly move
      the end of the region to skip. */
  datatype Emit = Emit(out: Option<string>, endNumber: int)

  /** One iteration of either loop of `one_hunk_prompt` at line `idx`. */
  function Step(pass: Pass, lines: seq<CodeLine>, idx: nat, end: int): (r: Result<Emit>)
    requires idx < |lines|
    ensures r.Err? ==> r.error == IndexError
  {
    var line := lines[idx];
    var masked := MaskLine(line, pass.mask);
    if |pass.keys| == 0 then Err(IndexError)
    else if Matches(pass, line, 0) && |pass.keys| == 1 then
      if pass.side == BuggySide || pass.distance.None? || pass.distance.value == 0 then Ok(Emit(Some(masked), end))
      else
        match PyIndex(lines, idx - pass.distance.value - 1)
        case Err(e) => Err(e)
        case Ok(located) => Ok(Emit(Some(if pass.preMask == Some(located.stripped) then masked else line.text), end))
    else if Matches(pass, line, 0) && idx + 1 >= |lines| then Err(IndexError)
    else if Matches(pass, line, 0) && Matches(pass, lines[idx + 1], 1) then Ok(Emit(Some(masked), idx + |pass.keys|))
    else if idx < end then Ok(Emit(None, end))
    else Ok(Emit(Some(line.text), end))
  }

  /** The lines an iteration contributes to `prompt`. */
  function Emitted(e: Emit): seq<string> {
    if e.out.Some? then [e.out.value] else []
  }

  /** `xs` in front of the lines of `r`, or `r`'s exception. */
  function Prepend(xs: seq<string>, r: Result<seq<string>>): Result<seq<string>> {
    match r
    case Ok(v) => Ok(xs + v)
    case Err(e) => Err(e)
  }

  /** The loop of `one_hunk_prompt` from line `idx` on, with `end` the
      current `end_number`: the prompt lines, or the exception raised. */
  function Scan(pass: Pass, lines: seq<CodeLine>, idx: nat, end: int): (r: Result<seq<string>>)
    requires idx <= |lines|
    ensures r.Ok? ==> |r.value| <= |lines| - idx
    ensures r.Err? ==> r.error == IndexError
    decreases |lines| - idx
  {
    if idx == |lines| then Ok([])
    else
      match Step(pass, lines, idx, end)
      case Err(e) => Err(e)
      case Ok(emit) => Prepend(Emitted(emit), Scan(pass, lines, idx + 1, emit.endNumber))
  }

  /** A one-line hunk outside a skipped region: the line is masked if it
      matches and copied otherwise (no distance to check). */
  lemma StepOneLine(pass: Pass, lines: seq<CodeLine>, idx: nat, end: int)
    requires idx < |lines| && end <= idx && |pass.keys| == 1
    requires pass.side == BuggySide || pass.distance.None? || pass.distance == Some(0)
    ensures Step(pass, lines, idx, end) ==
      Ok(Emit(Some(if Matches(pass, lines[idx], 0) then MaskLine(lines[idx], pass.mask) else lines[idx].text), end))
  {
  }

  /** A line that does not match the first hunk line is skipped inside the
      region and copied outside it. */
  lemma StepNoMatch(pass: Pass, lines: seq<CodeLine>, idx: nat, end: int)
    requires idx < |lines| && |pass.keys| >= 1 && !Matches(pass, lines[idx], 0)
    ensures Step(pass, lines, idx, end) == Ok(Emit(if idx < end then None else Some(lines[idx].text), end))
  {
  }

  /** With a one-line hunk (and, on the fixed side, no distance to check)
      every line that matches becomes its masking prompt and every other
      line is copied, in order. */
  lemma {:induction false} OneLineHunkMasksEveryMatch(pass: Pass, lines: seq<CodeLine>, idx: nat, end: int)
    requires idx <= |lines| && end <= idx
    requires |pass.keys| == 1
    requires pass.side == BuggySide || pass.distance.None? || pass.distance == Some(0)
    ensures Scan(pass, lines, idx, end).Ok?
    ensures var v := Scan(pass, lines, idx, end).value;
      && |v| == |lines| - idx
      && forall k :: 0 <= k < |v| ==>
           v[k] == if Matches(pass, lines[idx + k], 0) then MaskLine(lines[idx + k], pass.mask) else lines[idx + k].text
    decreases |lines| - idx
  {
    if idx < |lines| {
      StepOneLine(pass, lines, idx, end);
      OneLineHunkMasksEveryMatch(pass, lines, idx + 1, end);
      var x := if Matches(pass, lines[idx], 0) then MaskLine(lines[idx], pass.mask) else lines[idx].text;
      var rest := Scan(pass, lines, idx + 1, end).value;
      assert Scan(pass, lines, idx, end) == Ok([x] + rest);
      var v := [x] + rest;
      forall k | 0 <= k < |v|
        ensures v[k] == if Matches(pass, lines[idx + k], 0) then MaskLine(lines[idx + k], pass.mask) else lines[idx + k].text
      {
        if k > 0 {
          assert v[k] == rest[k - 1];
          assert idx + 1 + (k - 1) == idx + k;
        }
      }
    }
  }

  /** A fixed-side one-line hunk with a nonzero distance: a matching line is
      masked exactly when the line `distance + 1` above it (counted from the
      end when that goes below the start) strips to the previous token. */
  predicate LookBackHolds(pass: Pass, lines: seq<CodeLine>, k: nat)
    requires pass.distance.Some? && k < |lines|
  {
    var located := PyIndex(lines, k - pass.distance.value - 1);
    located.Ok? && pass.preMask == Some(located.value.stripped)
  }

  /** The look-up of a matching line is in range. */
  predicate LookBackInRange(pass: Pass, lines: seq<CodeLine>, k: nat)
    requires pass.distance.Some? && k < |lines| && |pass.keys| >= 1
  {
    Matches(pass, lines[k], 0) ==> PyIndex(lines, k - pass.distance.value - 1).Ok?
  }

  lemma StepLookBack(pass: Pass, lines: seq<CodeLine>, idx: nat, end: int)
    requires idx < |lines| && end <= idx
    requires |pass.keys| == 1 && pass.side == FixedSide && pass.distance.Some? && pass.distance.value != 0
    ensures Step(pass, lines, idx, end).Ok? <==> LookBackInRange(pass, lines, idx)
    ensures Step(pass, lines, idx, end).Ok? ==> (Step(pass, lines, idx, end).value ==
      Emit(Some(if Matches(pass, lines[idx], 0) && LookBackHolds(pass, lines, idx)
                then MaskLine(lines[idx], pass.mask) else lines[idx].text), end))
  {
  }

  /** The pass fails exactly when some matching line's look-up is out of
      range. */
  lemma {:induction false} DistanceGuardsFailure(pass: Pass, lines: seq<CodeLine>, idx: nat, end: int)
    requires idx <= |lines| && end <= idx
    requires |pass.keys| == 1 && pass.side == FixedSide && pass.distance.Some? && pass.distance.value != 0
    ensures Scan(pass, lines, idx, end).Ok? <==> forall k :: idx <= k < |lines| ==> LookBackInRange(pass, lines, k)
    decreases |lines| - idx
  {
    if idx < |lines| {
      StepLookBack(pass, lines, idx, end);
      DistanceGuardsFailure(pass, lines, idx + 1, end);
    }
  }

  /** When the pass succeeds, each line is masked or copied as
      `LookBackHolds` says. */
  lemma {:induction false} DistanceGuardsMasking(pass: Pass, lines: seq<CodeLine>, idx: nat, end: int)
    requires idx <= |lines| && end <= idx
    requires |pass.keys| == 1 && pass.side == FixedSide && pass.distance.Some? && pass.distance.value != 0
    requires Scan(pass, lines, idx, end).Ok?
    ensures var v := Scan(pass, lines, idx, end).value;
      && |v| == |lines| - idx
      && forall k :: 0 <= k < |v| ==>
           v[k] == if Matches(pass, lines[idx + k], 0) && LookBackHolds(pass, lines, idx + k)
                   then MaskLine(lines[idx + k], pass.mask) else lines[idx + k].text
    decreases |lines| - idx
  {
    if idx < |lines| {
      StepLookBack(pass, lines, idx, end);
      var x := Step(pass, lines, idx, end).value.out.value;
      var r' := Scan(pass, lines, idx + 1, end);
      assert Scan(pass, lines, idx, end) == Prepend([x], r');
      DistanceGuardsMasking(pass, lines, idx + 1, end);
      var rest := r'.value;
      var v := [x] + rest;
      forall k | 0 <= k < |v|
        ensures v[k] == if Matches(pass, lines[idx + k], 0) && LookBackHolds(pass, lines, idx + k)
                        then MaskLine(lines[idx + k], pass.mask) else lines[idx + k].text
      {
        if k > 0 {
          assert v[k] == rest[k - 1];
          assert idx + 1 + (k - 1) == idx + k;
        }
      }
    }
  }

  /** The buggy branch compares the stripped code line with the hunk line as
      it is, so a hunk whose first line is indented is never found: the pass
      returns the code unchanged. */
  lemma {:induction false} IndentedHunkNeverMasked(pass: Pass, lines: seq<CodeLine>, idx: nat, end: int)
    requires idx <= |lines| && end <= idx
    requires forall k :: 0 <= k < |lines| ==> WellFormedLine(lines[k])
    requires pass.side == BuggySide && |pass.keys| >= 1
    requires |pass.keys[0]| > 0 && IsSpace(pass.keys[0][0])
    ensures Scan(pass, lines, idx, end).Ok?
    ensures var v := Scan(pass, lines, idx, end).value;
      |v| == |lines| - idx && forall k :: 0 <= k < |v| ==> v[k] == lines[idx + k].text
    decreases |lines| - idx
  {
    if idx < |lines| {
      assert WellFormedLine(lines[idx]);
      StepNoMatch(pass, lines, idx, end);
      IndentedHunkNeverMasked(pass, lines, idx + 1, end);
      var rest := Scan(pass, lines, idx + 1, end).value;
      var v := [lines[idx].text] + rest;
      assert Scan(pass, lines, idx, end).value == v;
      forall k | 0 <= k < |v|
        ensures v[k] == lines[idx + k].text
      {
        if k > 0 {
          assert v[k] == rest[k - 1];
          assert idx + 1 + (k - 1) == idx + k;
        }
      }
    }
  }

  /** Inside the skipped region, lines that do not start a new match are
      omitted. */
  lemma {:induction false} SkipRegion(pass: Pass, lines: seq<CodeLine>, j: nat, e: int, m: nat)
    requires j <= m <= |lines| && m <= e
    requires |pass.keys| >= 1
    requires forall i :: j <= i < m ==> !Matches(pass, lines[i], 0)
    ensures Scan(pass, lines, j, e) == Scan(pass, lines, m, e)
    decreases m - j
  {
    if j < m {
      StepNoMatch(pass, lines, j, e);
      SkipRegion(pass, lines, j + 1, e, m);
      assert Scan(pass, lines, j, e) == Prepend([], Scan(pass, lines, j + 1, e));
      assert forall v: seq<string> :: [] + v == v;
    }
  }

  function Min(a: nat, b: nat): nat {
    if a <= b then a else b
  }

  /** A multi-line hunk is found where a line matches its first line and the
      next matches its second: that line becomes the mask and the following
      `len(hunk) - 1` lines are omitted (unless one of them starts a new
      match). */
  lemma MultiLineHunkMasked(pass: Pass, lines: seq<CodeLine>, idx: nat, end: int)
    requires |pass.keys| >= 2 && idx + 1 < |lines|
    requires Matches(pass, lines[idx], 0) && Matches(pass, lines[idx + 1], 1)
    requires forall i :: idx < i < Min(idx + |pass.keys|, |lines|) ==> !Matches(pass, lines[i], 0)
    ensures Scan(pass, lines, idx, end) ==
      Prepend([MaskLine(lines[idx], pass.mask)], Scan(pass, lines, Min(idx + |pass.keys|, |lines|), idx + |pass.keys|))
  {
    var e := idx + |pass.keys|;
    assert Step(pass, lines, idx, end) == Ok(Emit(Some(MaskLine(lines[idx], pass.mask)), e));
    SkipRegion(pass, lines, idx + 1, e, Min(e, |lines|));
  }

  /** A multi-line hunk whose first line matches the last code line makes
      the pass look one line past the end: the whole pass raises. */
  lemma {:induction false} LastLineMatchRaises(pass: Pass, lines: seq<CodeLine>, idx: nat, end: int)
    requires |pass.keys| >= 2 && idx < |lines|
    requires Matches(pass, lines[|lines| - 1], 0)
    ensures Scan(pass, lines, idx, end) == Err(IndexError)
    decreases |lines| - idx
  {
    var s := Step(pass, lines, idx, end);
    if idx < |lines| - 1 && s.Ok? {
      LastLineMatchRaises(pass, lines, idx + 1, s.value.endNumber);
    }
  }

  /** A pass over some lines that starts outside a skipped region yields at
      least one line. */
  lemma ScanNonEmpty(pass: Pass, lines: seq<CodeLine>, idx: nat, end: int)
    requires idx < |lines| && end <= idx
    requires Scan(pass, lines, idx, end).Ok?
    ensures |Scan(pass, lines, idx, end).value| > 0
  {
    var s := Step(pass, lines, idx, end);
    assert s.value.out.Some?;
  }

  predicate SingleLines(lines: seq<string>) {
    forall k :: 0 <= k < |lines| ==> '\n' !in lines[k]
  }

  /** Every line a step emits is a code line or its masking prompt. */
  lemma StepEmitsLine(pass: Pass, lines: seq<CodeLine>, idx: nat, end: int)
    requires idx < |lines| && Step(pass, lines, idx, end).Ok?
    ensures var out := Step(pass, lines, idx, end).value.out;
      out.Some? ==> out.value == lines[idx].text || out.value == MaskLine(lines[idx], pass.mask)
  {
  }

  /** A prepared line without a line break, and its indentation. */
  predicate SingleLine(l: CodeLine) {
    WellFormedLine(l) && '\n' !in l.text
  }

  lemma SingleLineIndent(l: CodeLine, mask: string)
    requires SingleLine(l) && '\n' !in mask
    ensures '\n' !in MaskLine(l, mask)
  {
    assert forall i :: 0 <= i < |l.indent| ==> l.indent[i] == l.text[i];
  }

  /** A pass never introduces a line break: its output lines are code lines
      or their masking prompts. */
  lemma {:induction false} ScanSingleLines(pass: Pass, lines: seq<CodeLine>, idx: nat, end: int)
    requires idx <= |lines| && '\n' !in pass.mask
    requires forall k :: 0 <= k < |lines| ==> SingleLine(lines[k])
    requires Scan(pass, lines, idx, end).Ok?
    ensures SingleLines(Scan(pass, lines, idx, end).value)
    decreases |lines| - idx
  {
    if idx < |lines| {
      var emit := Step(pass, lines, idx, end).value;
      StepEmitsLine(pass, lines, idx, end);
      SingleLineIndent(lines[idx], pass.mask);
      ScanSingleLines(pass, lines, idx + 1, emit.endNumber);
      var xs := Emitted(emit);
      var rest := Scan(pass, lines, idx + 1, emit.endNumber).value;
      var v := xs + rest;
      assert Scan(pass, lines, idx, end).value == v;
      forall k | 0 <= k < |v|
        ensures '\n' !in v[k]
      {
        if k >= |xs| {
          assert v[k] == rest[k - |xs|];
        }
      }
    }
  }

  /** What a call on the strategy object leaves behind: what it returned or
      raised, and the object's fields afterwards. A raise does not undo the
      fields the call wrote before it. */
  datatype Call<T> = Call(result: Result<T>, state: ClozeState)

  /** The pass `one_hunk_prompt` runs on the given state and arguments. */
  function PassFor(mask: string, st: ClozeState, buggyHunk: seq<string>, fixedHunk: seq<string>): Pass {
    if |fixedHunk| != 0 then Pass(FixedSide, MapSeq(fixedHunk, LStrip), mask, st.distance, st.preMaskToken)
    else Pass(BuggySide, buggyHunk, mask, st.distance, st.preMaskToken)
  }

  /** `one_hunk_prompt`: number the token, then rewrite the fixed code if a
      fixed hunk is given and the buggy code otherwise; the prompt is the
      rewritten lines joined with line breaks. It raises a type error before
      touching the object when no template has been set, and otherwise can
      only raise an index error, after the numbering: the counter and the
      previous token stay advanced whether or not the pass raises. */
  function OneHunkPrompt(st: ClozeState, buggyHunk: seq<string>, fixedHunk: seq<string>,
                         buggyLines: seq<string>, fixedLines: seq<string>): (r: Call<string>)
    ensures st.originalMaskToken.None? ==> r.result.Err? && r.result.error.TypeError? && r.state == st
    ensures st.originalMaskToken.Some? && r.result.Err? ==> r.result.error == IndexError
    ensures st.originalMaskToken.Some? ==> r.state.maskTokenId == st.maskTokenId + (if st.strictOneHunk then 0 else 1)
    ensures st.originalMaskToken.Some? && !st.strictOneHunk && st.maskTokenId != 0 ==>
              r.state.preMaskToken == Some(MaskToken(st.originalMaskToken.value, st.maskTokenId - 1))
    ensures r.state.(maskTokenId := st.maskTokenId, preMaskToken := st.preMaskToken) == st
  {
    match st.originalMaskToken
    case None => Call(Err(TypeError("argument of type 'NoneType' is not iterable")), st)
    case Some(template) =>
      var (mask, st1) := BeginHunk(st, template);
      var lines := if |fixedHunk| != 0 then fixedLines else buggyLines;
      match Scan(PassFor(mask, st1, buggyHunk, fixedHunk), MapSeq(lines, Line), 0, 0)
      case Err(e) => Call(Err(e), st1)
      case Ok(out) => Call(Ok(Join(out, '\n')), st1)
  }

  /** Reference reading of a one-line hunk: every code line whose stripped
      text equals `key` becomes its masking prompt, every other line is
      kept, in order. */
  function MaskEveryMatch(lines: seq<string>, key: string, mask: string): (r: seq<string>)
    ensures |r| == |lines|
  {
    MapSeq(lines, (l: string) => if LStrip(l) == key then GenerateMaskingPrompt(l, mask) else l)
  }

  /** The masking of one prepared line against a one-line hunk. */
  function MaskIfMatch(l: CodeLine, key: string, mask: string): string {
    if l.stripped == key then MaskLine(l, mask) else l.text
  }

  lemma ScanOneLineHunkCode(pass: Pass, code: seq<CodeLine>, key: string)
    requires pass.keys == [key]
    requires pass.side == BuggySide || pass.distance.None? || pass.distance == Some(0)
    ensures Scan(pass, code, 0, 0) == Ok(MapSeq(code, (l: CodeLine) => MaskIfMatch(l, key, pass.mask)))
  {
    var r := Scan(pass, code, 0, 0);
    assert r.Ok? && |r.value| == |code| &&
      forall k :: 0 <= k < |code| ==> r.value[k] == MaskIfMatch(code[k], key, pass.mask)
    by {
      OneLineHunkMasksEveryMatch(pass, code, 0, 0);
    }
    var w := MapSeq(code, (l: CodeLine) => MaskIfMatch(l, key, pass.mask));
    assert r.value == w;
  }

  lemma ScanOneLineHunk(pass: Pass, lines: seq<string>, key: string)
    requires pass.keys == [key]
    requires pass.side == BuggySide || pass.distance.None? || pass.distance == Some(0)
    ensures Scan(pass, MapSeq(lines, Line), 0, 0) == Ok(MaskEveryMatch(lines, key, pass.mask))
  {
    var code := MapSeq(lines, Line);
    ScanOneLineHunkCode(pass, code, key);
    var v := MapSeq(code, (l: CodeLine) => MaskIfMatch(l, key, pass.mask));
    var w := MaskEveryMatch(lines, key, pass.mask);
    forall k | 0 <= k < |v|
      ensures v[k] == w[k]
    {
      MaskLineIsMaskingPrompt(lines[k], pass.mask);
    }
    assert v == w;
  }

  /** `one_hunk_prompt` with a one-line hunk (and, on the fixed side, no
      distance to check) is the reference reading, with the fixed hunk line
      stripped and the buggy hunk line taken as it is. */
  lemma OneLineHunkPrompt(st: ClozeState, template: string, buggyHunk: seq<string>, fixedHunk: seq<string>,
                          buggyLines: seq<string>, fixedLines: seq<string>)
    requires st.originalMaskToken == Some(template)
    requires |fixedHunk| == 1 || (|fixedHunk| == 0 && |buggyHunk| == 1)
    requires |fixedHunk| == 1 ==> st.distance.None? || st.distance == Some(0)
    ensures var (mask, st1) := BeginHunk(st, template);
      var key := if |fixedHunk| == 1 then LStrip(fixedHunk[0]) else buggyHunk[0];
      var lines := if |fixedHunk| == 1 then fixedLines else buggyLines;
      OneHunkPrompt(st, buggyHunk, fixedHunk, buggyLines, fixedLines) == Call(Ok(Join(MaskEveryMatch(lines, key, mask), '\n')), st1)
  {
    var (mask, st1) := BeginHunk(st, template);
    var key := if |fixedHunk| == 1 then LStrip(fixedHunk[0]) else buggyHunk[0];
    var pass := PassFor(mask, st1, buggyHunk, fixedHunk);
    assert pass.keys == [key];
    ScanOneLineHunk(pass, if |fixedHunk| == 1 then fixedLines else buggyLines, key);
  }

  /** One pass of `single_diff_file_prompt`: the hunk's distance is stored
      on the object, then the hunk is masked on the given side. */
  function HunkPass(st: ClozeState, hunk: (nat, seq<string>), side: Side, lines: seq<string>): Call<string> {
    var st1 := st.(distance := Some(hunk.0 as int));
    match side
    case FixedSide => OneHunkPrompt(st1, [], hunk.1, [], lines)
    case BuggySide => OneHunkPrompt(st1, hunk.1, [], lines, [])
  }

  /** The passes of `single_diff_file_prompt` over the hunks of one side:
      each pass sets the distance, rewrites the lines, and the next pass
      sees the prompt split back into lines. A pass that raises ends the
      chain, with the fields as that pass left them. */
  function Passes(st: ClozeState, hunks: seq<(nat, seq<string>)>, side: Side, lines: seq<string>): (r: Call<seq<string>>)
    decreases |hunks|
  {
    if |hunks| == 0 then Call(Ok(lines), st)
    else
      var one := HunkPass(st, hunks[0], side, lines);
      match one.result
      case Err(e) => Call(Err(e), one.state)
      case Ok(text) => Passes(one.state, hunks[1..], side, Split(text, '\n'))
  }

  /** One pass stores its hunk's distance and numbers one token (none when
      strict, and none when no template is set), returned or raised;
      strictness and template are kept. */
  lemma HunkPassState(st: ClozeState, hunk: (nat, seq<string>), side: Side, lines: seq<string>)
    ensures HunkPass(st, hunk, side, lines).state.distance == Some(hunk.0 as int)
    ensures HunkPass(st, hunk, side, lines).state.strictOneHunk == st.strictOneHunk
    ensures HunkPass(st, hunk, side, lines).state.originalMaskToken == st.originalMaskToken
    ensures HunkPass(st, hunk, side, lines).state.maskTokenId
              == st.maskTokenId + (if st.strictOneHunk || st.originalMaskToken.None? then 0 else 1)
  {
  }

  /** A chain of passes is its first pass followed, unless that raised, by
      the chain of the rest on the first pass's lines. */
  lemma PassesStep(st: ClozeState, hunks: seq<(nat, seq<string>)>, side: Side, lines: seq<string>)
    requires |hunks| > 0
    ensures HunkPass(st, hunks[0], side, lines).result.Err? ==>
      Passes(st, hunks, side, lines) == Call(Err(HunkPass(st, hunks[0], side, lines).result.error), HunkPass(st, hunks[0], side, lines).state)
    ensures HunkPass(st, hunks[0], side, lines).result.Ok? ==>
      Passes(st, hunks, side, lines)
        == Passes(HunkPass(st, hunks[0], side, lines).state, hunks[1..], side, Split(HunkPass(st, hunks[0], side, lines).result.value, '\n'))
  {
  }

  /** A chain of passes, returned or raised, keeps strictness and template. */
  lemma {:induction false} PassesKeepSettings(st: ClozeState, hunks: seq<(nat, seq<string>)>, side: Side, lines: seq<string>)
    ensures Passes(st, hunks, side, lines).state.strictOneHunk == st.strictOneHunk
    ensures Passes(st, hunks, side, lines).state.originalMaskToken == st.originalMaskToken
    decreases |hunks|
  {
    if |hunks| > 0 {
      var one := HunkPass(st, hunks[0], side, lines);
      HunkPassState(st, hunks[0], side, lines);
      PassesStep(st, hunks, side, lines);
      if one.result.Ok? {
        PassesKeepSettings(one.state, hunks[1..], side, Split(one.result.value, '\n'));
      }
    }
  }

  /** A completed chain of passes has advanced the counter by one per hunk
      (none when strict); strictness and template are kept in any case. */
  lemma {:induction false} PassesNumbering(st: ClozeState, hunks: seq<(nat, seq<string>)>, side: Side, lines: seq<string>)
    ensures Passes(st, hunks, side, lines).result.Ok? ==>
      Passes(st, hunks, side, lines).state.maskTokenId == st.maskTokenId + (if st.strictOneHunk then 0 else |hunks|)
    ensures Passes(st, hunks, side, lines).state.strictOneHunk == st.strictOneHunk
    ensures Passes(st, hunks, side, lines).state.originalMaskToken == st.originalMaskToken
    decreases |hunks|
  {
    PassesKeepSettings(st, hunks, side, lines);
    if |hunks| > 0 && Passes(st, hunks, side, lines).result.Ok? {
      var one := HunkPass(st, hunks[0], side, lines);
      assert one.result.Ok? by {
        PassesStep(st, hunks, side, lines);
      }
      var tail, next := hunks[1..], Split(one.result.value, '\n');
      assert Passes(st, hunks, side, lines) == Passes(one.state, tail, side, next) by {
        PassesStep(st, hunks, side, lines);
      }
      assert one.state.maskTokenId == st.maskTokenId + (if st.strictOneHunk then 0 else 1)
          && one.state.strictOneHunk == st.strictOneHunk by {
        HunkPassState(st, hunks[0], side, lines);
      }
      PassesNumbering(one.state, tail, side, next);
    }
  }

  /** A completed chain of passes leaves the last hunk's distance set. */
  lemma {:induction false} PassesLastDistance(st: ClozeState, hunks: seq<(nat, seq<string>)>, side: Side, lines: seq<string>)
    requires |hunks| > 0
    ensures Passes(st, hunks, side, lines).result.Ok? ==>
      Passes(st, hunks, side, lines).state.distance == Some(hunks[|hunks| - 1].0 as int)
    decreases |hunks|
  {
    if Passes(st, hunks, side, lines).result.Ok? {
      var one := HunkPass(st, hunks[0], side, lines);
      assert one.result.Ok? by {
        PassesStep(st, hunks, side, lines);
      }
      var tail, next := hunks[1..], Split(one.result.value, '\n');
      assert Passes(st, hunks, side, lines) == Passes(one.state, tail, side, next) by {
        PassesStep(st, hunks, side, lines);
      }
      if |tail| == 0 {
        assert Passes(one.state, tail, side, next).state == one.state;
        HunkPassState(st, hunks[0], side, lines);
      } else {
        PassesLastDistance(one.state, tail, side, next);
        assert tail[|tail| - 1] == hunks[|hunks| - 1];
      }
    }
  }

  /** A chain of passes that raises stops at some hunk `k`, whose distance
      stays set, with the counter advanced by the `k + 1` passes begun (none
      when strict, and none when no template is set, since then the first
      pass raises before numbering). */
  lemma {:induction false} PassesRaise(st: ClozeState, hunks: seq<(nat, seq<string>)>, side: Side, lines: seq<string>)
    ensures Passes(st, hunks, side, lines).result.Err? ==> exists k :: (0 <= k < |hunks|
      && Passes(st, hunks, side, lines).state.distance == Some(hunks[k].0 as int)
      && Passes(st, hunks, side, lines).state.maskTokenId
           == st.maskTokenId + (if st.strictOneHunk || st.originalMaskToken.None? then 0 else k + 1))
    decreases |hunks|
  {
    if |hunks| == 0 || Passes(st, hunks, side, lines).result.Ok? {
      return;
    }
    var one := HunkPass(st, hunks[0], side, lines);
    HunkPassState(st, hunks[0], side, lines);
    PassesStep(st, hunks, side, lines);
    var r := Passes(st, hunks, side, lines);
    if one.result.Err? {
      assert r.state.distance == Some(hunks[0].0 as int);
    } else {
      var tail := hunks[1..];
      var rest := Passes(one.state, tail, side, Split(one.result.value, '\n'));
      PassesRaise(one.state, tail, side, Split(one.result.value, '\n'));
      assert st.originalMaskToken.Some?;
      var k :| 0 <= k < |tail| && rest.state.distance == Some(tail[k].0 as int)
        && rest.state.maskTokenId == one.state.maskTokenId + (if st.strictOneHunk then 0 else k + 1);
      assert tail[k] == hunks[k + 1];
      assert r.state.maskTokenId == st.maskTokenId + (if st.strictOneHunk then 0 else (k + 1) + 1);
    }
  }

  lemma {:induction false} PassesErrors(st: ClozeState, hunks: seq<(nat, seq<string>)>, side: Side, lines: seq<string>)
    ensures st.originalMaskToken.Some? && Passes(st, hunks, side, lines).result.Err? ==>
              Passes(st, hunks, side, lines).result.error == IndexError
    decreases |hunks|
  {
    if |hunks| > 0 {
      var one := HunkPass(st, hunks[0], side, lines);
      if one.result.Ok? {
        PassesErrors(one.state, hunks[1..], side, Split(one.result.value, '\n'));
      }
    }
  }

  /** The hunks `single_diff_file_prompt` masks: the fixed side's when there
      are any, the buggy side's otherwise. */
  function MaskedHunks(buggyHunks: seq<(nat, seq<string>)>, fixedHunks: seq<(nat, seq<string>)>): seq<(nat, seq<string>)> {
    if |fixedHunks| != 0 then fixedHunks else buggyHunks
  }

  /** `single_diff_file_prompt`: mask the fixed hunks when there are any,
      otherwise the buggy hunks. With a template set it can only raise an
      index error. Whether it returns or raises, strictness and template
      are kept; when it raises at some masked hunk `k`, that hunk's
      distance and the numbering of the `k + 1` passes begun stay on the
      object. */
  function SingleDiffFilePrompt(st: ClozeState, buggyHunks: seq<(nat, seq<string>)>, fixedHunks: seq<(nat, seq<string>)>,
                                buggyLines: seq<string>, fixedLines: seq<string>): (r: Call<string>)
    ensures st.originalMaskToken.Some? && r.result.Err? ==> r.result.error == IndexError
    ensures r.state.strictOneHunk == st.strictOneHunk && r.state.originalMaskToken == st.originalMaskToken
    ensures r.result.Err? ==> exists k :: (0 <= k < |MaskedHunks(buggyHunks, fixedHunks)|
      && r.state.distance == Some(MaskedHunks(buggyHunks, fixedHunks)[k].0 as int)
      && r.state.maskTokenId == st.maskTokenId + (if st.strictOneHunk || st.originalMaskToken.None? then 0 else k + 1))
  {
    var hunks := MaskedHunks(buggyHunks, fixedHunks);
    var side := if |fixedHunks| != 0 then FixedSide else BuggySide;
    var lines := if |fixedHunks| != 0 then fixedLines else buggyLines;
    PassesErrors(st, hunks, side, lines);
    PassesKeepSettings(st, hunks, side, lines);
    PassesRaise(st, hunks, side, lines);
    var passes := Passes(st, hunks, side, lines);
    match passes.result
    case Err(e) => Call(Err(e), passes.state)
    case Ok(lines') => Call(Ok(Join(lines', '\n')), passes.state)
  }

  /** The fixed hunks take precedence: when there are any, the buggy hunks
      and the buggy code play no part. The counter then advances by one per
      hunk of the side used (none when strict). */
  lemma SingleDiffFilePromptNumbering(st: ClozeState, buggyHunks: seq<(nat, seq<string>)>, fixedHunks: seq<(nat, seq<string>)>,
                                      buggyLines: seq<string>, fixedLines: seq<string>,
                                      otherBuggyHunks: seq<(nat, seq<string>)>, otherBuggyLines: seq<string>)
    ensures |fixedHunks| > 0 ==>
      SingleDiffFilePrompt(st, buggyHunks, fixedHunks, buggyLines, fixedLines)
        == SingleDiffFilePrompt(st, otherBuggyHunks, fixedHunks, otherBuggyLines, fixedLines)
    ensures SingleDiffFilePrompt(st, buggyHunks, fixedHunks, buggyLines, fixedLines).result.Ok? ==>
      SingleDiffFilePrompt(st, buggyHunks, fixedHunks, buggyLines, fixedLines).state.maskTokenId
        == st.maskTokenId + (if st.strictOneHunk then 0 else if |fixedHunks| > 0 then |fixedHunks| else |buggyHunks|)
  {
    if |fixedHunks| > 0 {
      PassesNumbering(st, fixedHunks, FixedSide, fixedLines);
    } else {
      PassesNumbering(st, buggyHunks, BuggySide, buggyLines);
    }
  }

  /** Splitting the joined prompt back into lines between passes loses
      nothing: with a single hunk, `single_diff_file_prompt` returns or
      raises exactly as that hunk's `one_hunk_prompt` does, and leaves the
      same fields. */
  lemma SingleHunkIsOnePass(st: ClozeState, buggyHunks: seq<(nat, seq<string>)>, h: (nat, seq<string>),
                            buggyLines: seq<string>, fixedLines: seq<string>)
    ensures SingleDiffFilePrompt(st, buggyHunks, [h], buggyLines, fixedLines)
              == OneHunkPrompt(st.(distance := Some(h.0 as int)), [], h.1, [], fixedLines)
  {
    var one := OneHunkPrompt(st.(distance := Some(h.0 as int)), [], h.1, [], fixedLines);
    var passes := Passes(st, [h], FixedSide, fixedLines);
    assert HunkPass(st, h, FixedSide, fixedLines) == one;
    if one.result.Ok? {
      var text := one.result.value;
      assert [h][1..] == [];
      assert passes == Passes(one.state, [], FixedSide, Split(text, '\n'));
      assert passes == Call(Ok(Split(text, '\n')), one.state);
      JoinSplit(text, '\n');
    } else {
      assert passes == Call(Err(one.result.error), one.state);
    }
  }

  /** The lines the next pass sees are exactly the lines this pass produced,
      as long as the code and the template are free of line breaks. */
  lemma NextPassSeesPassOutput(st: ClozeState, template: string, hunk: seq<string>, lines: seq<string>)
    requires st.originalMaskToken == Some(template) && '\n' !in template
    requires |hunk| > 0 && |lines| > 0 && SingleLines(lines)
    requires OneHunkPrompt(st, [], hunk, [], lines).result.Ok?
    ensures var (mask, st1) := BeginHunk(st, template);
      Split(OneHunkPrompt(st, [], hunk, [], lines).result.value, '\n')
        == Scan(PassFor(mask, st1, [], hunk), MapSeq(lines, Line), 0, 0).value
  {
    var (mask, st1) := BeginHunk(st, template);
    var pass := PassFor(mask, st1, [], hunk);
    var code := MapSeq(lines, Line);
    MaskTokenSingleLine(template, st.maskTokenId);
    forall k | 0 <= k < |code|
      ensures SingleLine(code[k])
    {
      LineWellFormed(lines[k]);
    }
    ScanNonEmpty(pass, code, 0, 0);
    ScanSingleLines(pass, code, 0, 0);
    var out := Scan(pass, code, 0, 0).value;
    SplitJoin(out, '\n');
  }

  /** `re.sub('//.*', '', line).strip() != ''`: something other than
      whitespace before the first `//`. */
  predicate IsCodeLine(line: string) {
    var code := match IndexOf(line, "//", 0) case Some(i) => line[..i] case None => line;
    exists k :: 0 <= k < |code| && !IsSpace(code[k])
  }

  /** No `//` starts at or before position `k`, so `line[k]` lies outside
      any comment. */
  predicate OutsideComment(line: string, k: nat) {
    forall i :: 0 <= i <= k ==> !OccursAt(line, "//", i)
  }

  /** Independently of how the comment is cut off: a line is a code line
      exactly when some character that is neither whitespace nor inside a
      `//` comment exists. */
  lemma CodeLineOutsideComment(line: string)
    ensures IsCodeLine(line) <==> exists k :: 0 <= k < |line| && !IsSpace(line[k]) && OutsideComment(line, k)
  {
    match IndexOf(line, "//", 0)
    case None =>
      if IsCodeLine(line) {
        var k :| 0 <= k < |line| && !IsSpace(line[k]);
        assert OutsideComment(line, k);
      }
      if k :| 0 <= k < |line| && !IsSpace(line[k]) && OutsideComment(line, k) {
        assert IsCodeLine(line);
      }
    case Some(i) =>
      if IsCodeLine(line) {
        var k :| 0 <= k < i && !IsSpace(line[..i][k]);
        assert line[..i][k] == line[k];
        assert OutsideComment(line, k);
      }
      if k :| 0 <= k < |line| && !IsSpace(line[k]) && OutsideComment(line, k) {
        assert k < i;
        assert !IsSpace(line[..i][k]);
        assert IsCodeLine(line);
      }
  }

  /** A line that is whitespace and then `//` is no code line. */
  lemma CommentLineIsNotCode(ws: string, rest: string)
    requires forall k :: 0 <= k < |ws| ==> IsSpace(ws[k])
    ensures !IsCodeLine(ws + "//" + rest)
  {
    var line := ws + "//" + rest;
    assert OccursAt(line, "//", |ws|) by {
      assert line[|ws|..|ws| + 2] == "//";
    }
    CodeLineOutsideComment(line);
  }

  /** The diff lines `cloze_prompt` looks at: those with code outside a
      `//` comment. */
  function DiffLines(diffText: string): seq<string> {
    Filter(Split(diffText, '\n'), IsCodeLine)
  }

  /** `code_line[1:]`. */
  function Tail(s: string): string {
    if |s| == 0 then s else s[1..]
  }

  /** The part of `cloze_prompt` after the code has been checked out and
      loaded: split the code, drop comment-only diff lines, and either mask
      the longest hunk of each side (strict) or all hunks. With a template
      set it can only raise an index error. Whether it returns or raises,
      strictness and template are kept. The strict path numbers one token,
      raise or not; the other path, when it completes, one per masked hunk,
      and when it raises at masked hunk `k`, the `k + 1` begun, leaving that
      hunk's distance set. */
  function ClozeFromCode(st: ClozeState, strict: bool, buggyCode: string, fixedCode: string, diffText: string): (r: Call<string>)
    ensures st.originalMaskToken.Some? && r.result.Err? ==> r.result.error == IndexError
    ensures r.state.originalMaskToken == st.originalMaskToken && r.state.strictOneHunk == st.strictOneHunk
    ensures strict && st.originalMaskToken.Some? ==>
      r.state.maskTokenId == st.maskTokenId + (if st.strictOneHunk then 0 else 1) && r.state.distance == st.distance
    ensures !strict && r.result.Ok? ==>
      r.state.maskTokenId == st.maskTokenId + (if st.strictOneHunk then 0 else
        |MaskedHunks(FindAllDiffHunks(DiffLines(diffText), '+'), FindAllDiffHunks(DiffLines(diffText), '-'))|)
    ensures !strict && r.result.Err? ==> exists k :: (0 <= k < |MaskedHunks(FindAllDiffHunks(DiffLines(diffText), '+'), FindAllDiffHunks(DiffLines(diffText), '-'))|
      && r.state.distance == Some(MaskedHunks(FindAllDiffHunks(DiffLines(diffText), '+'), FindAllDiffHunks(DiffLines(diffText), '-'))[k].0 as int)
      && r.state.maskTokenId == st.maskTokenId + (if st.strictOneHunk || st.originalMaskToken.None? then 0 else k + 1))
  {
    var buggyLines := Split(buggyCode, '\n');
    var fixedLines := Split(fixedCode, '\n');
    var diffLines := DiffLines(diffText);
    if strict then
      var fixedHunk := MapSeq(FindLongestDiffHunk(diffLines, '-'), Tail);
      var buggyHunk := MapSeq(FindLongestDiffHunk(diffLines, '+'), Tail);
      OneHunkPrompt(st, buggyHunk, fixedHunk, buggyLines, fixedLines)
    else
      var buggyHunks := FindAllDiffHunks(diffLines, '+');
      var fixedHunks := FindAllDiffHunks(diffLines, '-');
      SingleDiffFilePromptNumbering(st, buggyHunks, fixedHunks, buggyLines, fixedLines, buggyHunks, buggyLines);
      SingleDiffFilePrompt(st, buggyHunks, fixedHunks, buggyLines, fixedLines)
  }

  /** `prompt`: store the strictness, reject a model without a template,
      store its template, give no prompt unless the ground truth is one hunk
      of one file, and otherwise return the code of both versions with the
      cloze prompt. The code of both versions (read from the checked-out
      bug) is an input. The strictness is stored even when the assertion
      fails, and the template even when prompt construction raises. */
  function Prompt(st: ClozeState, modelName: string, strict: bool, groundTruth: Patch, diffText: string,
                  buggyCode: string, fixedCode: string): (r: Call<Option<(string, string, string)>>)
    ensures r.result.Err? && r.result.error.AssertionError? <==> modelName !in MaskDict
    ensures modelName !in MaskDict ==>
      r.result == Err(AssertionError("Unknown model name: " + modelName)) && r.state == st.(strictOneHunk := strict)
    ensures modelName in MaskDict ==> r.state.originalMaskToken == Some(MaskDict[modelName]) && r.state.strictOneHunk == strict
    ensures modelName in MaskDict && !IsSingleHunk(groundTruth) ==>
      r.result == Ok(None) && r.state == st.(strictOneHunk := strict, originalMaskToken := Some(MaskDict[modelName]))
    ensures r.result.Ok? && r.result.value.Some? ==>
      IsSingleHunk(groundTruth) && r.result.value.value.0 == buggyCode && r.result.value.value.1 == fixedCode
  {
    var st1 := st.(strictOneHunk := strict);
    if modelName !in MaskDict then Call(Err(AssertionError("Unknown model name: " + modelName)), st1)
    else
      var st2 := st1.(originalMaskToken := Some(MaskDict[modelName]));
      if !IsSingleHunk(groundTruth) then Call(Ok(None), st2)
      else
        var c := ClozeFromCode(st2, strict, buggyCode, fixedCode, diffText);
        match c.result
        case Err(e) => Call(Err(e), c.state)
        case Ok(prompt) => Call(Ok(Some((buggyCode, fixedCode, prompt))), c.state)
  }
}
