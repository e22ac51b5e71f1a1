/** Judging one submission in one box: the sequence of steps, and the verdict it
    amounts to. */
module Judging {
  import opened Base
  import opened Status
  import opened Meta
  import opened Boxes
  import opened Messages
  import opened OutputCompare

  datatype CaseResult = CaseResult(
    testcaseId: nat,
    caseIndex: int,
    status: JudgeStatus,
    timeMs: int,
    memoryKb: int,
    input: string,
    actual: string,
    expected: string,
    error: string)

  datatype JudgeResult = JudgeResult(
    status: JudgeStatus,
    timeMs: int,
    memoryKb: int,
    error: string,
    compilerOutput: string,
    failedIndex: int,
    cases: seq<CaseResult>)

  // ---------- one test case ----------

  /** The four checks in the order of the code. */
  function CaseVerdict(tc: TestCase, memoryLimitKb: int, run: SandboxResult): JudgeStatus {
    if run.timedOut || run.status == "TO" then TimeLimitExceeded
    else if run.memoryKb > memoryLimitKb then MemoryLimitExceeded
    else if run.exitCode != 0 || run.signal != 0 then RuntimeError
    else if !SameOutput(tc.expected, run.stdout) then WrongAnswer
    else Accepted
  }

  /** What each verdict says about a run: the first of four causes that applies, the last of
      them being an output that no white-space edits connect to the expected one. */
  ghost predicate VerdictExplained(tc: TestCase, limit: int, run: SandboxResult, verdict: JudgeStatus) {
    var late := run.timedOut || run.status == "TO";
    var big := run.memoryKb > limit;
    var broken := run.exitCode != 0 || run.signal != 0;
    var wrong := !Connected(tc.expected, run.stdout);
    && (verdict == TimeLimitExceeded <==> late)
    && (verdict == MemoryLimitExceeded <==> big && !late)
    && (verdict == RuntimeError <==> broken && !big && !late)
    && (verdict == WrongAnswer <==> wrong && !broken && !big && !late)
    && (verdict == Accepted <==> !wrong && !broken && !big && !late)
  }

  lemma VerdictIsExplained(tc: TestCase, limit: int, run: SandboxResult)
    ensures VerdictExplained(tc, limit, run, CaseVerdict(tc, limit, run))
  {
    ComparisonDecidesEdits(tc.expected, run.stdout);
    hide SameOutput, Connected;
  }

  function CaseError(verdict: JudgeStatus, i: nat, run: SandboxResult): string {
    match verdict
    case TimeLimitExceeded => "Time limit exceeded on testcase " + ToString(i + 1)
    case MemoryLimitExceeded =>
      "Memory limit exceeded on testcase " + ToString(i + 1) + " (" + ToString(run.memoryKb) + " KB)"
    case RuntimeError =>
      if run.signal != 0 then
        "Program terminated by signal " + ToString(run.signal) + " on testcase " + ToString(i + 1)
      else
        "Non-zero exit code " + ToString(run.exitCode) + " on testcase " + ToString(i + 1) + "\n" + run.stderr
    case WrongAnswer => "Wrong answer on testcase " + ToString(i + 1)
    case _ => ""
  }

  /** A case is recorded under its own index when that is positive, else by position. */
  function RecordedIndex(tc: TestCase, i: nat): int {
    if tc.caseIndex > 0 then tc.caseIndex else i + 1
  }

  function CaseRow(tc: TestCase, i: nat, memoryLimitKb: int, run: SandboxResult): CaseResult {
    var verdict := CaseVerdict(tc, memoryLimitKb, run);
    CaseResult(tc.testcaseId, RecordedIndex(tc, i), verdict, run.timeMs, run.memoryKb,
               tc.input, run.stdout, tc.expected, CaseError(verdict, i, run))
  }

  // ---------- results ----------

  function PeakTime(cases: seq<CaseResult>): int {
    if cases == [] then 0 else Max(cases[|cases| - 1].timeMs, PeakTime(cases[..|cases| - 1]))
  }

  function PeakMemory(cases: seq<CaseResult>): int {
    if cases == [] then 0 else Max(cases[|cases| - 1].memoryKb, PeakMemory(cases[..|cases| - 1]))
  }

  function CompileErrorResult(compile: SandboxResult): JudgeResult {
    JudgeResult(CompilationError, 0, 0, compile.stderr, compile.stderr, -1, [])
  }

  function AcceptedResult(cases: seq<CaseResult>): JudgeResult {
    JudgeResult(Accepted, PeakTime(cases), PeakMemory(cases), "", "", -1, cases)
  }

  /** The last of `cases` failed, on test number `i`. */
  function RejectedResult(i: nat, cases: seq<CaseResult>): JudgeResult
    requires cases != []
  {
    var failed := cases[|cases| - 1];
    JudgeResult(failed.status, PeakTime(cases), PeakMemory(cases), failed.error, "", i, cases)
  }

  // ---------- the steps of `judge` ----------

  /** What the loop does with the outcome of run `i`: `Some` leaves it. */
  function AfterRun(tests: seq<TestCase>, limit: int, i: nat, cases: seq<CaseResult>, out: Try<SandboxResult>)
    : Option<Try<JudgeResult>>
    requires i < |tests|
  {
    match out
    case Threw => Some(Threw)
    case Returned(run) =>
      var row := CaseRow(tests[i], i, limit, run);
      if row.status != Accepted then Some(Returned(RejectedResult(i, cases + [row]))) else None
  }

  function MoreCases(tests: seq<TestCase>, limit: int, i: nat, cases: seq<CaseResult>, run: SandboxResult)
    : seq<CaseResult>
    requires i < |tests|
  {
    cases + [CaseRow(tests[i], i, limit, run)]
  }

  /** The loop from test `i` on, `cases` being the rows recorded so far. */
  function CasesWith(ops: BoxOps, tests: seq<TestCase>, limit: int, box: Box, i: nat, cases: seq<CaseResult>)
    : (Try<JudgeResult>, Box)
    requires i <= |tests|
    decreases |tests| - i
  {
    if i == |tests| then (Returned(AcceptedResult(cases)), box)
    else
      var (out, box') := RunWith(ops, box, tests[i].input);
      match AfterRun(tests, limit, i, cases, out)
      case Some(r) => (r, box')
      case None => CasesWith(ops, tests, limit, box', i + 1, MoreCases(tests, limit, i, cases, out.value))
  }

  /** What `judge` does once the compilation gave `out`: `Some` ends it. */
  function AfterCompile(out: Try<SandboxResult>): Option<Try<JudgeResult>> {
    match out
    case Threw => Some(Threw)
    case Returned(compile) => if compile.exitCode != 0 then Some(Returned(CompileErrorResult(compile))) else None
  }

  /** `judge` between acquiring a box and releasing it, nobody else touching the box. */
  function JudgeWith(ops: BoxOps, tests: seq<TestCase>, limit: int, box: Box): (Try<JudgeResult>, Box) {
    var (out, box') := CompileWith(ops, box);
    match AfterCompile(out)
    case Some(r) => (r, box')
    case None => CasesWith(ops, tests, limit, box', 0, [])
  }

  function JobOf(sub: Submission): Job {
    Job(sub.language, sub.code, sub.timeLimitMs, sub.memoryLimitKb)
  }

  /** Judging `sub` alone in box `id` of machine `m`, the box holding `box` at the start. */
  function JudgeOn(m: Machine, id: int, box: Box, sub: Submission): (Try<JudgeResult>, Box) {
    JudgeWith(OpsOf(m, id, JobOf(sub)), sub.testcases, sub.memoryLimitKb, box)
  }

  // ---------- the verdict as a property of the run outcomes ----------

  /** The outcomes of the runs from test `i` on, as they would be if none ended the loop. */
  function OutcomesWith(ops: BoxOps, tests: seq<TestCase>, box: Box, i: nat): (outs: seq<Try<SandboxResult>>)
    requires i <= |tests|
    ensures |outs| == |tests| - i
    decreases |tests| - i
  {
    if i == |tests| then []
    else
      var (out, box') := RunWith(ops, box, tests[i].input);
      [out] + OutcomesWith(ops, tests, box', i + 1)
  }

  predicate Passes(tc: TestCase, memoryLimitKb: int, out: Try<SandboxResult>) {
    out.Returned? && CaseVerdict(tc, memoryLimitKb, out.value) == Accepted
  }

  /** The first test that does not pass, or the number of tests. */
  function FirstStop(tests: seq<TestCase>, limit: int, outs: seq<Try<SandboxResult>>): (k: nat)
    requires |outs| == |tests|
    ensures k <= |tests|
    ensures forall j :: 0 <= j < k ==> Passes(tests[j], limit, outs[j])
    ensures k < |tests| ==> !Passes(tests[k], limit, outs[k])
  {
    if tests == [] || !Passes(tests[0], limit, outs[0]) then 0
    else 1 + FirstStop(tests[1..], limit, outs[1..])
  }

  /** The rows of tests whose runs returned; the first has number `base`. */
  function Rows(tests: seq<TestCase>, limit: int, base: nat, outs: seq<Try<SandboxResult>>): (rows: seq<CaseResult>)
    requires |outs| <= |tests|
    requires forall j :: 0 <= j < |outs| ==> outs[j].Returned?
    ensures |rows| == |outs|
    ensures forall j :: 0 <= j < |rows| ==> rows[j] == CaseRow(tests[j], base + j, limit, outs[j].value)
  {
    if outs == [] then []
    else [CaseRow(tests[0], base, limit, outs[0].value)] + Rows(tests[1..], limit, base + 1, outs[1..])
  }

  /** The judgement of tests numbered from `base` whose runs gave `outs`. */
  function Judgement(tests: seq<TestCase>, limit: int, base: nat, outs: seq<Try<SandboxResult>>): Try<JudgeResult>
    requires |outs| == |tests|
  {
    var k := FirstStop(tests, limit, outs);
    if k == |tests| then Returned(AcceptedResult(Rows(tests, limit, base, outs)))
    else if outs[k].Threw? then Threw
    else Returned(RejectedResult(base + k, Rows(tests, limit, base, outs[..k + 1])))
  }

  lemma FirstStopUnique(tests: seq<TestCase>, limit: int, outs: seq<Try<SandboxResult>>, k: nat)
    requires |outs| == |tests| && k <= |tests|
    requires forall j :: 0 <= j < k ==> Passes(tests[j], limit, outs[j])
    requires k < |tests| ==> !Passes(tests[k], limit, outs[k])
    ensures FirstStop(tests, limit, outs) == k
  {
  }

  lemma RowsUnique(tests: seq<TestCase>, limit: int, base: nat, outs: seq<Try<SandboxResult>>, rows: seq<CaseResult>)
    requires |outs| <= |tests| && |rows| == |outs|
    requires forall j :: 0 <= j < |outs| ==> outs[j].Returned?
    requires forall j :: 0 <= j < |rows| ==> rows[j] == CaseRow(tests[j], base + j, limit, outs[j].value)
    ensures rows == Rows(tests, limit, base, outs)
  {
  }

  /** One turn of the loop. */
  lemma CasesFrom(ops: BoxOps, tests: seq<TestCase>, limit: int, box: Box, i: nat, cases: seq<CaseResult>)
    requires i < |tests|
    ensures var (out, box') := RunWith(ops, box, tests[i].input);
      CasesWith(ops, tests, limit, box, i, cases) ==
      match out
      case Threw => (Threw, box')
      case Returned(run) =>
        var row := CaseRow(tests[i], i, limit, run);
        if row.status != Accepted then (Returned(RejectedResult(i, cases + [row])), box')
        else CasesWith(ops, tests, limit, box', i + 1, cases + [row])
  {
    hide RunWith, CaseRow;
  }

  lemma CasesDone(ops: BoxOps, tests: seq<TestCase>, limit: int, box: Box, cases: seq<CaseResult>)
    ensures CasesWith(ops, tests, limit, box, |tests|, cases) == (Returned(AcceptedResult(cases)), box)
  {
  }

  lemma PassesIffRowAccepted(tc: TestCase, i: nat, limit: int, run: SandboxResult)
    ensures Passes(tc, limit, Returned(run)) <==> CaseRow(tc, i, limit, run).status == Accepted
  {
    hide CaseVerdict;
  }

  lemma ThrowingFails(tc: TestCase, limit: int)
    ensures !Passes(tc, limit, Threw)
  {
  }

  /** The loop with its early exits computes the judgement of the run outcomes. */
  lemma {:induction false} LoopMeetsJudgement(
    ops: BoxOps, tests: seq<TestCase>, limit: int, box: Box, i: nat, cases: seq<CaseResult>,
    outs: seq<Try<SandboxResult>>)
    requires i <= |tests| && |outs| == |tests|
    requires outs[i..] == OutcomesWith(ops, tests, box, i)
    requires forall j :: 0 <= j < i ==> outs[j].Returned? && Passes(tests[j], limit, outs[j])
    requires cases == Rows(tests, limit, 0, outs[..i])
    ensures CasesWith(ops, tests, limit, box, i, cases).0 == Judgement(tests, limit, 0, outs)
    decreases |tests| - i
  {
    hide RunWith, CaseRow, Passes, CasesWith, Judgement, AcceptedResult, RejectedResult, Rows;
    if i == |tests| {
      CasesDone(ops, tests, limit, box, cases);
      JudgementAt(tests, limit, 0, outs, i);
      assert outs[..i] == outs;
    } else {
      var (out, box') := RunWith(ops, box, tests[i].input);
      CasesFrom(ops, tests, limit, box, i, cases);
      assert out == outs[i..][0] == outs[i];
      if out.Returned? {
        var row := CaseRow(tests[i], i, limit, out.value);
        PassesIffRowAccepted(tests[i], i, limit, out.value);
        assert outs[..i + 1] == outs[..i] + [out];
        RowsUnique(tests, limit, 0, outs[..i + 1], cases + [row]);
        if row.status == Accepted {
          assert outs[i + 1..] == outs[i..][1..];
          LoopMeetsJudgement(ops, tests, limit, box', i + 1, cases + [row], outs);
        } else {
          JudgementAt(tests, limit, 0, outs, i);
        }
      } else {
        assert !Passes(tests[i], limit, out) by { ThrowingFails(tests[i], limit); }
        JudgementAt(tests, limit, 0, outs, i);
      }
    }
  }

  lemma RowStatus(tc: TestCase, i: nat, limit: int, run: SandboxResult)
    ensures CaseRow(tc, i, limit, run).status == CaseVerdict(tc, limit, run)
  {
  }

  // ---------- what a judgement says ----------

  /** `t` is the maximum of 0 and the times of the rows; likewise for the memory. */
  ghost predicate ArePeaks(cases: seq<CaseResult>, timeMs: int, memoryKb: int) {
    && 0 <= timeMs && (forall j :: 0 <= j < |cases| ==> cases[j].timeMs <= timeMs)
    && (timeMs == 0 || exists j :: 0 <= j < |cases| && cases[j].timeMs == timeMs)
    && 0 <= memoryKb && (forall j :: 0 <= j < |cases| ==> cases[j].memoryKb <= memoryKb)
    && (memoryKb == 0 || exists j :: 0 <= j < |cases| && cases[j].memoryKb == memoryKb)
  }

  lemma {:induction false} PeaksArePeaks(cases: seq<CaseResult>)
    ensures ArePeaks(cases, PeakTime(cases), PeakMemory(cases))
  {
    if cases != [] {
      var n := |cases| - 1;
      var init := cases[..n];
      PeaksArePeaks(init);
      assert forall j :: 0 <= j < n ==> init[j] == cases[j];
      if PeakTime(init) != 0 {
        var j :| 0 <= j < n && init[j].timeMs == PeakTime(init);
        assert cases[j].timeMs == PeakTime(init);
      }
      if PeakMemory(init) != 0 {
        var j :| 0 <= j < n && init[j].memoryKb == PeakMemory(init);
        assert cases[j].memoryKb == PeakMemory(init);
      }
    }
  }

  /** A row tells which test it is about, and its outputs bear out its verdict. */
  ghost predicate RowMatches(tc: TestCase, i: nat, row: CaseResult) {
    && row.testcaseId == tc.testcaseId && row.caseIndex == RecordedIndex(tc, i)
    && row.input == tc.input && row.expected == tc.expected
    && (row.status == Accepted ==> SameOutput(tc.expected, row.actual))
    && (row.status == WrongAnswer ==> !SameOutput(tc.expected, row.actual))
  }

  ghost predicate RowsMatch(tests: seq<TestCase>, cases: seq<CaseResult>) {
    |cases| <= |tests| && forall i :: 0 <= i < |cases| ==> RowMatches(tests[i], i, cases[i])
  }

  lemma RowsOfRunsMatch(tests: seq<TestCase>, limit: int, cases: seq<CaseResult>, outs: seq<Try<SandboxResult>>)
    requires |cases| <= |outs| == |tests|
    requires forall i :: 0 <= i < |cases| ==>
               outs[i].Returned? && cases[i] == CaseRow(tests[i], i, limit, outs[i].value)
    ensures RowsMatch(tests, cases)
  {
    hide CaseError, SameOutput, RecordedIndex;
  }

  /** `r` is a verdict that names its evidence: all but the last row are accepted, and the
      last row decides. */
  ghost predicate Evidenced(tests: seq<TestCase>, r: JudgeResult) {
    && ArePeaks(r.cases, r.timeMs, r.memoryKb)
    && RowsMatch(tests, r.cases)
    && (r.status == CompilationError ==>
          r.cases == [] && r.failedIndex == -1 && r.error == r.compilerOutput)
    && (r.status == Accepted ==>
          |r.cases| == |tests| && r.failedIndex == -1 && r.error == "" && r.compilerOutput == ""
          && forall j :: 0 <= j < |r.cases| ==> r.cases[j].status == Accepted)
    && (r.status != Accepted && r.status != CompilationError ==>
          && r.status in {TimeLimitExceeded, MemoryLimitExceeded, RuntimeError, WrongAnswer}
          && 0 <= r.failedIndex < |tests| && |r.cases| == r.failedIndex + 1
          && r.compilerOutput == "" && r.error == r.cases[r.failedIndex].error
          && r.cases[r.failedIndex].status == r.status
          && forall j :: 0 <= j < r.failedIndex ==> r.cases[j].status == Accepted)
  }

  /** The message of a row, its numbers read back. */
  ghost predicate MessageSays(verdict: JudgeStatus, i: nat, run: SandboxResult, message: string) {
    match verdict
    case TimeLimitExceeded => Phrase(message, "Time limit exceeded on testcase ", i + 1, "")
    case MemoryLimitExceeded =>
      exists kb :: Phrase(message, "Memory limit exceeded on testcase ", i + 1, " (" + kb + " KB)")
                   && NumberOf(kb) == Some(run.memoryKb)
    case RuntimeError =>
      if run.signal != 0 then
        exists number :: Phrase(message, "Program terminated by signal " + number + " on testcase ", i + 1, "")
                         && NumberOf(number) == Some(run.signal)
      else
        exists number ::
          Phrase(message, "Non-zero exit code " + number + " on testcase ", i + 1, "\n" + run.stderr)
          && NumberOf(number) == Some(run.exitCode)
    case WrongAnswer => Phrase(message, "Wrong answer on testcase ", i + 1, "")
    case _ => message == ""
  }

  ghost predicate Phrase(message: string, start: string, number: int, end: string) {
    exists text :: PhraseWith(message, start, text, end) && NumberOf(text) == Some(number)
  }

  predicate PhraseWith(message: string, start: string, text: string, end: string) {
    message == start + text + end
  }

  lemma PhraseSays(message: string, start: string, number: int, end: string)
    requires message == start + ToString(number) + end
    ensures Phrase(message, start, number, end)
  {
    ToStringReads(number);
    assert PhraseWith(message, start, ToString(number), end);
  }

  lemma ErrorSays(verdict: JudgeStatus, i: nat, run: SandboxResult)
    requires verdict in {Accepted, TimeLimitExceeded, MemoryLimitExceeded, RuntimeError, WrongAnswer}
    ensures MessageSays(verdict, i, run, CaseError(verdict, i, run))
  {
    hide ToString, NumberOf, Phrase;
    var message := CaseError(verdict, i, run);
    match verdict
    case TimeLimitExceeded =>
      assert message == message + "";
      PhraseSays(message, "Time limit exceeded on testcase ", i + 1, "");
    case MemoryLimitExceeded =>
      ToStringReads(run.memoryKb);
      var start, kb := "Memory limit exceeded on testcase ", ToString(run.memoryKb);
      assert message == start + ToString(i + 1) + (" (" + kb + " KB)");
      PhraseSays(message, start, i + 1, " (" + kb + " KB)");
    case RuntimeError =>
      if run.signal != 0 {
        ToStringReads(run.signal);
        assert message == message + "";
        PhraseSays(message, "Program terminated by signal " + ToString(run.signal) + " on testcase ", i + 1, "");
      } else {
        ToStringReads(run.exitCode);
        var start := "Non-zero exit code " + ToString(run.exitCode) + " on testcase ";
        assert message == start + ToString(i + 1) + ("\n" + run.stderr);
        PhraseSays(message, start, i + 1, "\n" + run.stderr);
      }
    case WrongAnswer =>
      assert message == message + "";
      PhraseSays(message, "Wrong answer on testcase ", i + 1, "");
    case _ =>
  }

  /** A row records its run: the numbers and the output that the run reported, the verdict that
      is explained by them, and the message that goes with it. */
  ghost predicate Records(tc: TestCase, i: nat, limit: int, run: SandboxResult, row: CaseResult) {
    && row.timeMs == run.timeMs && row.memoryKb == run.memoryKb && row.actual == run.stdout
    && VerdictExplained(tc, limit, run, row.status)
    && MessageSays(row.status, i, run, row.error)
  }

  /** Time and memory are the maxima of 0 and what the first `n` runs reported. */
  ghost predicate PeaksOfRuns(outs: seq<Try<SandboxResult>>, n: nat, timeMs: int, memoryKb: int)
    requires n <= |outs| && forall i :: 0 <= i < n ==> outs[i].Returned?
  {
    && 0 <= timeMs && (forall i :: 0 <= i < n ==> outs[i].value.timeMs <= timeMs)
    && (timeMs == 0 || exists i :: 0 <= i < n && outs[i].value.timeMs == timeMs)
    && 0 <= memoryKb && (forall i :: 0 <= i < n ==> outs[i].value.memoryKb <= memoryKb)
    && (memoryKb == 0 || exists i :: 0 <= i < n && outs[i].value.memoryKb == memoryKb)
  }

  /** The result records the runs that were made, one row for each. */
  ghost predicate RecordsRuns(
    tests: seq<TestCase>, limit: int, outs: seq<Try<SandboxResult>>, r: JudgeResult)
  {
    && |r.cases| <= |outs| == |tests|
    && (forall i :: 0 <= i < |r.cases| ==> outs[i].Returned? && Records(tests[i], i, limit, outs[i].value, r.cases[i]))
    && PeaksOfRuns(outs, |r.cases|, r.timeMs, r.memoryKb)
  }

  lemma RowRecords(tc: TestCase, i: nat, limit: int, run: SandboxResult)
    ensures Records(tc, i, limit, run, CaseRow(tc, i, limit, run))
  {
    hide CaseError, SameOutput, MessageSays, VerdictExplained, CaseVerdict;
    VerdictIsExplained(tc, limit, run);
    VerdictsOfRuns(tc, limit, run);
    ErrorSays(CaseVerdict(tc, limit, run), i, run);
  }

  lemma VerdictsOfRuns(tc: TestCase, limit: int, run: SandboxResult)
    ensures CaseVerdict(tc, limit, run) in
              {Accepted, TimeLimitExceeded, MemoryLimitExceeded, RuntimeError, WrongAnswer}
  {
    hide SameOutput;
  }

  lemma RowsRecordRuns(tests: seq<TestCase>, limit: int, outs: seq<Try<SandboxResult>>, r: JudgeResult)
    requires |r.cases| <= |outs| == |tests| && ArePeaks(r.cases, r.timeMs, r.memoryKb)
    requires forall i :: 0 <= i < |r.cases| ==>
               outs[i].Returned? && r.cases[i] == CaseRow(tests[i], i, limit, outs[i].value)
    ensures RecordsRuns(tests, limit, outs, r)
  {
    hide CaseRow, VerdictExplained, MessageSays;
    forall i | 0 <= i < |r.cases|
      ensures Records(tests[i], i, limit, outs[i].value, r.cases[i])
      ensures r.cases[i].timeMs == outs[i].value.timeMs && r.cases[i].memoryKb == outs[i].value.memoryKb
    {
      RowRecords(tests[i], i, limit, outs[i].value);
    }
    if r.timeMs != 0 {
      var j :| 0 <= j < |r.cases| && r.cases[j].timeMs == r.timeMs;
      assert outs[j].value.timeMs == r.timeMs;
    }
    if r.memoryKb != 0 {
      var j :| 0 <= j < |r.cases| && r.cases[j].memoryKb == r.memoryKb;
      assert outs[j].value.memoryKb == r.memoryKb;
    }
  }

  /** Run `i` ends in an exception and every run before it passes. */
  ghost predicate FirstThrows(tests: seq<TestCase>, limit: int, outs: seq<Try<SandboxResult>>, i: int)
    requires |outs| == |tests|
  {
    0 <= i < |tests| && outs[i].Threw? && forall k :: 0 <= k < i ==> Passes(tests[k], limit, outs[k])
  }

  /** The meaning of a judgement: it is accepted exactly when every run passes; otherwise the
      first run that does not pass decides, by an exception or by its verdict. */
  lemma JudgementCharacterised(tests: seq<TestCase>, limit: int, outs: seq<Try<SandboxResult>>)
    requires |outs| == |tests|
    ensures var j := Judgement(tests, limit, 0, outs);
      && (j.Returned? ==>
            var r := j.value;
            && Evidenced(tests, r) && r.status != CompilationError
            && RecordsRuns(tests, limit, outs, r)
            && (r.status == Accepted <==> forall i :: 0 <= i < |tests| ==> Passes(tests[i], limit, outs[i]))
            && (forall i :: 0 <= i < |r.cases| ==>
                  outs[i].Returned? && r.cases[i] == CaseRow(tests[i], i, limit, outs[i].value))
            && (r.status == Accepted && 0 <= limit ==> r.memoryKb <= limit))
      && (j.Threw? <==> exists i :: FirstThrows(tests, limit, outs, i))
  {
    hide CaseRow, CaseVerdict, Evidenced, AcceptedResult, RejectedResult, RecordsRuns;
    var k := FirstStop(tests, limit, outs);
    if k == |tests| {
      AcceptedIsEvidenced(tests, limit, outs);
      PeaksOfEvidenced(tests, Judgement(tests, limit, 0, outs).value);
      RowsRecordRuns(tests, limit, outs, Judgement(tests, limit, 0, outs).value);
    } else if outs[k].Returned? {
      RejectedIsEvidenced(tests, limit, outs, k);
      assert !Passes(tests[k], limit, outs[k]);
      PeaksOfEvidenced(tests, Judgement(tests, limit, 0, outs).value);
      RowsRecordRuns(tests, limit, outs, Judgement(tests, limit, 0, outs).value);
    } else {
      assert FirstThrows(tests, limit, outs, k);
    }
  }

  lemma PeaksOfEvidenced(tests: seq<TestCase>, r: JudgeResult)
    requires Evidenced(tests, r)
    ensures ArePeaks(r.cases, r.timeMs, r.memoryKb)
  {
  }

  lemma AcceptedIsEvidenced(tests: seq<TestCase>, limit: int, outs: seq<Try<SandboxResult>>)
    requires |outs| == |tests|
    requires forall j :: 0 <= j < |tests| ==> Passes(tests[j], limit, outs[j])
    ensures forall j :: 0 <= j < |tests| ==> outs[j].Returned?
    ensures var rows := Rows(tests, limit, 0, outs);
      var r := AcceptedResult(rows);
      && Evidenced(tests, r) && r.status == Accepted && r.cases == rows
      && (0 <= limit ==> r.memoryKb <= limit)
  {
    hide CaseRow, CaseVerdict, Passes, PeakTime, PeakMemory, RowsMatch, Rows;
    PassingReturns(tests, limit, outs, |tests|);
    var rows := Rows(tests, limit, 0, outs);
    PeaksArePeaks(rows);
    RowsOfRunsMatch(tests, limit, rows, outs);
    forall j | 0 <= j < |rows| ensures rows[j].status == Accepted && rows[j].memoryKb <= limit {
      PassingRow(tests[j], j, limit, outs[j]);
    }
  }

  lemma PassingRow(tc: TestCase, i: nat, limit: int, out: Try<SandboxResult>)
    requires Passes(tc, limit, out)
    ensures CaseRow(tc, i, limit, out.value).status == Accepted
    ensures CaseRow(tc, i, limit, out.value).memoryKb <= limit
  {
    hide CaseError, SameOutput;
  }

  lemma RejectedIsEvidenced(tests: seq<TestCase>, limit: int, outs: seq<Try<SandboxResult>>, k: nat)
    requires |outs| == |tests| && k < |tests|
    requires forall j :: 0 <= j < k ==> Passes(tests[j], limit, outs[j])
    requires outs[k].Returned? && !Passes(tests[k], limit, outs[k])
    ensures forall j :: 0 <= j <= k ==> outs[j].Returned?
    ensures var rows := Rows(tests, limit, 0, outs[..k + 1]);
      var r := RejectedResult(k, rows);
      && Evidenced(tests, r) && r.status != CompilationError && r.status != Accepted && r.cases == rows
      && forall i :: 0 <= i < |rows| ==> rows[i] == CaseRow(tests[i], i, limit, outs[i].value)
  {
    hide CaseRow, CaseVerdict, Passes, PeakTime, PeakMemory, RowsMatch, Rows;
    PassingReturns(tests, limit, outs, k);
    var rows := Rows(tests, limit, 0, outs[..k + 1]);
    PeaksArePeaks(rows);
    RowsOfRunsMatch(tests, limit, rows, outs);
    forall j | 0 <= j < k ensures rows[j].status == Accepted {
      PassingRow(tests[j], j, limit, outs[j]);
    }
    FailingRow(tests[k], k, limit, outs[k].value);
  }

  lemma FailingRow(tc: TestCase, i: nat, limit: int, run: SandboxResult)
    requires !Passes(tc, limit, Returned(run))
    ensures CaseRow(tc, i, limit, run).status in
              {TimeLimitExceeded, MemoryLimitExceeded, RuntimeError, WrongAnswer}
  {
    hide CaseError, SameOutput;
  }

  /** Every value that `judge` returns is evidenced; a compilation failure is reported
      exactly when the compilation's exit code is not 0, with the compiler's messages; any other
      result records the runs that were made. */
  lemma JudgeIsEvidenced(ops: BoxOps, tests: seq<TestCase>, limit: int, box: Box)
    requires JudgeWith(ops, tests, limit, box).0.Returned?
    ensures var r := JudgeWith(ops, tests, limit, box).0.value;
      && Evidenced(tests, r)
      && CompileWith(ops, box).0.Returned?
      && (r.status == CompilationError <==> CompileWith(ops, box).0.value.exitCode != 0)
      && (r.status == CompilationError ==>
            r.error == r.compilerOutput == CompileWith(ops, box).0.value.stderr && r.timeMs == 0 && r.memoryKb == 0)
      && (r.status != CompilationError ==>
            RecordsRuns(tests, limit, OutcomesWith(ops, tests, CompileWith(ops, box).1, 0), r))
      && (r.status == Accepted && 0 <= limit ==> r.memoryKb <= limit)
  {
    hide CompileWith, RunWith, RecordsRuns;
    var (out, box') := CompileWith(ops, box);
    if AfterCompile(out).None? {
      JudgeMeetsJudgement(ops, tests, limit, box);
      JudgementCharacterised(tests, limit, OutcomesWith(ops, tests, box', 0));
    } else {
      PeaksArePeaks([]);
    }
  }

  /** After a good compilation `judge` is the judgement of its run outcomes. */
  lemma JudgeMeetsJudgement(ops: BoxOps, tests: seq<TestCase>, limit: int, box: Box)
    requires AfterCompile(CompileWith(ops, box).0).None?
    ensures JudgeWith(ops, tests, limit, box).0
         == Judgement(tests, limit, 0, OutcomesWith(ops, tests, CompileWith(ops, box).1, 0))
  {
    hide CompileWith, RunWith;
    var box' := CompileWith(ops, box).1;
    var outs := OutcomesWith(ops, tests, box', 0);
    assert outs[0..] == outs;
    assert Rows(tests, limit, 0, outs[..0]) == [];
    LoopMeetsJudgement(ops, tests, limit, box', 0, [], outs);
  }

  /** `judge` reports a time-out exactly when the last raw status in the meta file of the
      run is `TO`, whatever a `killed` line said and whatever the times were. */
  lemma TimeOutIffStatusTO(m: Machine, id: int, box: Box, tc: TestCase, limit: int)
    requires RUN_META in box.files && ReadRun(m, id, box, true).Returned?
    ensures CaseVerdict(tc, limit, ReadRun(m, id, box, true).value) == TimeLimitExceeded <==>
            LastText(Entries(Lines(box.files[RUN_META])), {RawStatus}) == "TO"
  {
    hide SameOutput;
    MetaClosedForm(m.conv, Entries(Lines(box.files[RUN_META])));
  }

  // ---------- when a call throws ----------

  /** The call of isolate could be made and left a meta file with a malformed number. */
  ghost predicate Malformed(m: Machine, ran: bool, box: Box, meta: string) {
    && ran && meta in box.files
    && exists e :: e in Entries(Lines(box.files[meta])) && !WellFormed(m.conv, e)
  }

  lemma ReadBackThrows(m: Machine, id: int, box: Box, ran: bool, meta: string)
    ensures ReadBack(m, id, box, ran, meta).Threw? <==> Malformed(m, ran, box, meta)
  {
    hide ReadEntries, Entries, Lines, WellFormed, BoxPath, ReadFile, SandboxFailure;
    if ran && meta in box.files {
      ThrowsIffMalformed(m.conv, Entries(Lines(box.files[meta])));
    }
  }

  /** The compilation of `sub` from `box` on leaves such a meta file. */
  ghost predicate CompileMalformed(m: Machine, id: int, box: Box, sub: Submission) {
    var (failure, box1) := PrepareCompile(m, id, box, sub.language, sub.code);
    failure.None? &&
    var (ran, box2) := InvokeCompiler(m, id, box1, sub.language, sub.code);
    Malformed(m, ran, box2, COMPILE_META)
  }

  ghost predicate RunMalformed(m: Machine, id: int, box: Box, q: RunRequest) {
    var (failure, box1) := PrepareRun(m, id, box, q);
    failure.None? &&
    var (ran, box2) := InvokeProgram(m, id, box1, q);
    Malformed(m, ran, box2, RUN_META)
  }

  lemma CompileThrows(m: Machine, id: int, box: Box, sub: Submission)
    ensures CompileOn(m, id, box, sub.language, sub.code).0.Threw? <==> CompileMalformed(m, id, box, sub)
  {
    hide PrepareCompile, InvokeCompiler, ReadBack, ReadFile, Malformed;
    var box1 := PrepareCompile(m, id, box, sub.language, sub.code).1;
    var (ran, box2) := InvokeCompiler(m, id, box1, sub.language, sub.code);
    ReadBackThrows(m, id, box2, ran, COMPILE_META);
  }

  lemma RunThrows(m: Machine, id: int, box: Box, q: RunRequest)
    ensures RunOn(m, id, box, q).0.Threw? <==> RunMalformed(m, id, box, q)
  {
    hide PrepareRun, InvokeProgram, ReadBack, Malformed;
    var box1 := PrepareRun(m, id, box, q).1;
    var (ran, box2) := InvokeProgram(m, id, box1, q);
    ReadBackThrows(m, id, box2, ran, RUN_META);
  }

  /** The box before run `j`, when run `i` starts from `box`. */
  function BoxBefore(ops: BoxOps, tests: seq<TestCase>, box: Box, i: nat, j: nat): Box
    requires i <= j <= |tests|
    decreases j - i
  {
    if i == j then box else BoxBefore(ops, tests, RunWith(ops, box, tests[i].input).1, i + 1, j)
  }

  lemma {:induction false} OutcomeAt(ops: BoxOps, tests: seq<TestCase>, box: Box, i: nat, j: nat)
    requires i <= j < |tests|
    ensures OutcomesWith(ops, tests, box, i)[j - i] == RunWith(ops, BoxBefore(ops, tests, box, i, j), tests[j].input).0
    decreases j - i
  {
    hide RunWith;
    if i < j {
      OutcomeAt(ops, tests, RunWith(ops, box, tests[i].input).1, i + 1, j);
    }
  }

  /** Run `i` leaves a malformed meta file, and every run before it passes. */
  ghost predicate ThrowsAtRun(m: Machine, id: int, box: Box, sub: Submission, i: int) {
    var job := JobOf(sub);
    var ops := OpsOf(m, id, job);
    && 0 <= i < |sub.testcases|
    && RunMalformed(m, id, BoxBefore(ops, sub.testcases, box, 0, i), Request(job, sub.testcases[i].input))
    && forall k :: 0 <= k < i ==>
         Passes(sub.testcases[k], sub.memoryLimitKb,
                RunOn(m, id, BoxBefore(ops, sub.testcases, box, 0, k), Request(job, sub.testcases[k].input)).0)
  }

  lemma ThrowsAtRunIsFirst(m: Machine, id: int, box: Box, sub: Submission, i: nat)
    requires i < |sub.testcases|
    ensures ThrowsAtRun(m, id, box, sub, i) <==>
            FirstThrows(sub.testcases, sub.memoryLimitKb,
                        OutcomesWith(OpsOf(m, id, JobOf(sub)), sub.testcases, box, 0), i)
  {
    hide OpsOf, RunWith, RunOn, RunMalformed, Passes, BoxBefore, OutcomesWith, Request, JobOf;
    var job := JobOf(sub);
    var ops := OpsOf(m, id, job);
    forall k | 0 <= k <= i
      ensures OutcomesWith(ops, sub.testcases, box, 0)[k]
           == RunOn(m, id, BoxBefore(ops, sub.testcases, box, 0, k), Request(job, sub.testcases[k].input)).0
    {
      OutcomeAt(ops, sub.testcases, box, 0, k);
      OpsRun(m, id, job, BoxBefore(ops, sub.testcases, box, 0, k), sub.testcases[k].input);
    }
    RunThrows(m, id, BoxBefore(ops, sub.testcases, box, 0, i), Request(job, sub.testcases[i].input));
  }

  /** A call is left by an exception, its box never given back, exactly when the compilation
      leaves a malformed meta file, or the compilation is good and the first run that does
      not pass leaves one. */
  lemma ThrowsIffMetaMalformed(m: Machine, id: int, box: Box, sub: Submission)
    ensures var (compile, box') := CompileOn(m, id, box, sub.language, sub.code);
      JudgeOn(m, id, box, sub).0.Threw? <==>
        || CompileMalformed(m, id, box, sub)
        || (compile.Returned? && compile.value.exitCode == 0 && exists i :: ThrowsAtRun(m, id, box', sub, i))
  {
    hide CompileOn, CompileWith, RunWith, OpsOf, CompileMalformed, ThrowsAtRun, FirstThrows, CasesWith, OutcomesWith;
    var ops := OpsOf(m, id, JobOf(sub));
    OpsCompile(m, id, JobOf(sub), box);
    CompileThrows(m, id, box, sub);
    var (compile, box') := CompileWith(ops, box);
    if AfterCompile(compile).None? {
      JudgeMeetsJudgement(ops, sub.testcases, sub.memoryLimitKb, box);
      JudgementThrows(sub.testcases, sub.memoryLimitKb, OutcomesWith(ops, sub.testcases, box', 0));
      ThrowsAtSomeRun(m, id, box', sub);
    }
  }

  lemma JudgementThrows(tests: seq<TestCase>, limit: int, outs: seq<Try<SandboxResult>>)
    requires |outs| == |tests|
    ensures Judgement(tests, limit, 0, outs).Threw? <==> exists i :: FirstThrows(tests, limit, outs, i)
  {
    hide Judgement, FirstThrows, Evidenced, Passes, CaseRow;
    JudgementCharacterised(tests, limit, outs);
  }

  lemma ThrowsAtSomeRun(m: Machine, id: int, box: Box, sub: Submission)
    ensures var outs := OutcomesWith(OpsOf(m, id, JobOf(sub)), sub.testcases, box, 0);
      (exists i :: ThrowsAtRun(m, id, box, sub, i)) <==>
      (exists i :: FirstThrows(sub.testcases, sub.memoryLimitKb, outs, i))
  {
    hide OpsOf, RunMalformed, Passes, OutcomesWith, RunOn, BoxBefore;
    var outs := OutcomesWith(OpsOf(m, id, JobOf(sub)), sub.testcases, box, 0);
    if i :| ThrowsAtRun(m, id, box, sub, i) {
      ThrowsAtRunIsFirst(m, id, box, sub, i);
    }
    if i :| FirstThrows(sub.testcases, sub.memoryLimitKb, outs, i) {
      ThrowsAtRunIsFirst(m, id, box, sub, i);
    }
  }

  // ---------- composition ----------

  /** Two judgements of consecutive parts of a test list, put together. */
  function Append(a: JudgeResult, b: JudgeResult): JudgeResult {
    b.(timeMs := Max(b.timeMs, a.timeMs), memoryKb := Max(b.memoryKb, a.memoryKb), cases := a.cases + b.cases)
  }

  lemma {:induction false} PeaksAppend(a: seq<CaseResult>, b: seq<CaseResult>)
    ensures PeakTime(a + b) == Max(PeakTime(b), PeakTime(a))
    ensures PeakMemory(a + b) == Max(PeakMemory(b), PeakMemory(a))
  {
    PeaksArePeaks(a);
    if b == [] {
      assert a + b == a;
    } else {
      PeaksAppend(a, b[..|b| - 1]);
      assert (a + b)[..|a + b| - 1] == a + b[..|b| - 1];
    }
  }

  lemma RowsAppend(
    ts: seq<TestCase>, us: seq<TestCase>, limit: int, base: nat,
    os: seq<Try<SandboxResult>>, qs: seq<Try<SandboxResult>>)
    requires |os| == |ts| && |qs| <= |us|
    requires forall j :: 0 <= j < |os| ==> os[j].Returned?
    requires forall j :: 0 <= j < |qs| ==> qs[j].Returned?
    ensures forall j :: 0 <= j < |os + qs| ==> (os + qs)[j].Returned?
    ensures Rows(ts + us, limit, base, os + qs) == Rows(ts, limit, base, os) + Rows(us, limit, base + |ts|, qs)
  {
    hide CaseRow;
    RowsUnique(ts + us, limit, base, os + qs, Rows(ts, limit, base, os) + Rows(us, limit, base + |ts|, qs));
  }

  lemma AcceptedStatus(cases: seq<CaseResult>)
    ensures AcceptedResult(cases).status == Accepted
  {
  }

  /** With the run outcomes fixed, a rejection stands whatever tests follow. */
  lemma RejectionStands(
    ts: seq<TestCase>, us: seq<TestCase>, limit: int, base: nat,
    os: seq<Try<SandboxResult>>, qs: seq<Try<SandboxResult>>)
    requires |os| == |ts| && |qs| == |us|
    requires Judgement(ts, limit, base, os).Threw? || Judgement(ts, limit, base, os).value.status != Accepted
    ensures Judgement(ts + us, limit, base, os + qs) == Judgement(ts, limit, base, os)
  {
    hide CaseRow, Passes, Judgement, AcceptedResult, RejectedResult, Rows;
    var k := FirstStop(ts, limit, os);
    PassingReturns(ts, limit, os, k);
    JudgementAt(ts, limit, base, os, k);
    if k == |ts| {
      AcceptedStatus(Rows(ts, limit, base, os));
      assert false;
    }
    JudgementAt(ts + us, limit, base, os + qs, k);
    assert (os + qs)[..k + 1] == os[..k + 1];
    if os[k].Returned? {
      RowsUnique(ts + us, limit, base, os[..k + 1], Rows(ts, limit, base, os[..k + 1]));
    }
  }

  lemma PassingReturns(tests: seq<TestCase>, limit: int, outs: seq<Try<SandboxResult>>, k: nat)
    requires |outs| == |tests| && k <= |tests|
    requires forall j :: 0 <= j < k ==> Passes(tests[j], limit, outs[j])
    ensures forall j :: 0 <= j < k ==> outs[j].Returned?
  {
  }

  /** A judgement of tests numbered from 0, moved to numbers from `base` on: the position of
      the failure, the positions recorded for cases without an index of their own, and the
      numbers in the messages move; verdicts, times, memory and outputs stay. */
  function Renumber(tests: seq<TestCase>, outs: seq<Try<SandboxResult>>, base: nat, r: JudgeResult): JudgeResult
    requires |r.cases| <= |tests| == |outs|
    requires forall i :: 0 <= i < |r.cases| ==> outs[i].Returned?
  {
    var cases := seq(|r.cases|, i requires 0 <= i < |r.cases| =>
      RenumberRow(tests[i], i, base, outs[i].value, r.cases[i]));
    if r.failedIndex < 0 || cases == [] then r.(cases := cases)
    else r.(failedIndex := base + r.failedIndex, error := cases[|cases| - 1].error, cases := cases)
  }

  function RenumberRow(tc: TestCase, i: nat, base: nat, run: SandboxResult, row: CaseResult): CaseResult {
    row.(caseIndex := if tc.caseIndex > 0 then row.caseIndex else base + row.caseIndex,
         error := CaseError(row.status, base + i, run))
  }

  lemma RowRenumbered(tc: TestCase, i: nat, base: nat, limit: int, run: SandboxResult)
    ensures CaseRow(tc, base + i, limit, run) == RenumberRow(tc, i, base, run, CaseRow(tc, i, limit, run))
  {
    hide CaseVerdict, CaseError;
  }

  lemma {:induction false} PeaksOfSame(a: seq<CaseResult>, b: seq<CaseResult>)
    requires |a| == |b|
    requires forall i :: 0 <= i < |a| ==> a[i].timeMs == b[i].timeMs && a[i].memoryKb == b[i].memoryKb
    ensures PeakTime(a) == PeakTime(b) && PeakMemory(a) == PeakMemory(b)
  {
    if a != [] {
      PeaksOfSame(a[..|a| - 1], b[..|b| - 1]);
    }
  }

  /** What the rows of a judgement have to do with the run outcomes. */
  lemma RowsOfJudgement(tests: seq<TestCase>, limit: int, base: nat, outs: seq<Try<SandboxResult>>)
    requires |outs| == |tests| && Judgement(tests, limit, base, outs).Returned?
    ensures var cases := Judgement(tests, limit, base, outs).value.cases;
      && |cases| <= |tests|
      && forall i :: 0 <= i < |cases| ==>
           outs[i].Returned? && cases[i] == CaseRow(tests[i], base + i, limit, outs[i].value)
  {
    hide CaseRow, Passes, Rows, PeakTime, PeakMemory;
    PassingReturns(tests, limit, outs, FirstStop(tests, limit, outs));
  }

  /** Where the numbering starts makes no difference but to the numbers. */
  lemma NumberingIsOnlyNumbers(tests: seq<TestCase>, limit: int, base: nat, outs: seq<Try<SandboxResult>>)
    requires |outs| == |tests|
    ensures Judgement(tests, limit, 0, outs).Returned? ==>
              var r := Judgement(tests, limit, 0, outs).value;
              |r.cases| <= |tests| && forall i :: 0 <= i < |r.cases| ==> outs[i].Returned?
    ensures Judgement(tests, limit, base, outs) ==
            match Judgement(tests, limit, 0, outs)
            case Threw => Threw
            case Returned(r) => Returned(Renumber(tests, outs, base, r))
  {
    hide CaseRow, Passes, Rows, PeakTime, PeakMemory, RenumberRow;
    var k := FirstStop(tests, limit, outs);
    PassingReturns(tests, limit, outs, k);
    if k == |tests| || outs[k].Returned? {
      RowsOfJudgement(tests, limit, 0, outs);
      RowsOfJudgement(tests, limit, base, outs);
      var r, r' := Judgement(tests, limit, 0, outs).value, Judgement(tests, limit, base, outs).value;
      assert |r.cases| == |r'.cases|;
      forall i | 0 <= i < |r.cases|
        ensures r'.cases[i] == RenumberRow(tests[i], i, base, outs[i].value, r.cases[i])
        ensures r'.cases[i].timeMs == r.cases[i].timeMs && r'.cases[i].memoryKb == r.cases[i].memoryKb
        ensures r'.cases[i].status == r.cases[i].status
      {
        RowRenumbered(tests[i], i, base, limit, outs[i].value);
        RenumberedKeeps(tests[i], i, base, outs[i].value, r.cases[i]);
      }
      PeaksOfSame(r.cases, r'.cases);
      assert r'.cases == Renumber(tests, outs, base, r).cases;
    }
  }

  lemma RenumberedKeeps(tc: TestCase, i: nat, base: nat, run: SandboxResult, row: CaseResult)
    ensures var row' := RenumberRow(tc, i, base, run, row);
      row'.timeMs == row.timeMs && row'.memoryKb == row.memoryKb && row'.status == row.status
  {
  }

  /** With the run outcomes fixed, tests after an accepted list are judged as if they were
      alone, and the two results are put together, the second under later numbers. */
  lemma AcceptanceComposes(
    ts: seq<TestCase>, us: seq<TestCase>, limit: int, os: seq<Try<SandboxResult>>, qs: seq<Try<SandboxResult>>)
    requires |os| == |ts| && |qs| == |us|
    requires Judgement(ts, limit, 0, os).Returned? && Judgement(ts, limit, 0, os).value.status == Accepted
    ensures Judgement(us, limit, 0, qs).Returned? ==>
              var r := Judgement(us, limit, 0, qs).value;
              |r.cases| <= |us| && forall i :: 0 <= i < |r.cases| ==> qs[i].Returned?
    ensures Judgement(ts + us, limit, 0, os + qs) ==
            match Judgement(us, limit, 0, qs)
            case Threw => Threw
            case Returned(r) => Returned(Append(Judgement(ts, limit, 0, os).value, Renumber(us, qs, |ts|, r)))
  {
    hide Judgement, Append, Renumber;
    NumberingIsOnlyNumbers(us, limit, |ts|, qs);
    AcceptanceComposesUnder(ts, us, limit, 0, os, qs);
  }

  lemma AcceptanceComposesUnder(
    ts: seq<TestCase>, us: seq<TestCase>, limit: int, base: nat,
    os: seq<Try<SandboxResult>>, qs: seq<Try<SandboxResult>>)
    requires |os| == |ts| && |qs| == |us|
    requires Judgement(ts, limit, base, os).Returned? && Judgement(ts, limit, base, os).value.status == Accepted
    ensures Judgement(ts + us, limit, base, os + qs) ==
            match Judgement(us, limit, base + |ts|, qs)
            case Threw => Threw
            case Returned(r) => Returned(Append(Judgement(ts, limit, base, os).value, r))
  {
    hide CaseRow, Passes, AcceptedResult, RejectedResult, Append, Judgement, Rows;
    var k, n := FirstStop(us, limit, qs), |ts|;
    RejectedStatus(ts, limit, base, os);
    PassingReturns(ts, limit, os, n);
    PassingReturns(us, limit, qs, k);
    JudgementAt(ts, limit, base, os, n);
    JudgementAt(us, limit, base + n, qs, k);
    StopAfterPrefix(ts, us, limit, base, os, qs, k);
    var rows := Rows(ts, limit, base, os);
    if k == |us| {
      AppendAccepted(rows, Rows(us, limit, base + n, qs));
    } else if qs[k].Returned? {
      AppendRejected(base + n + k, rows, Rows(us, limit, base + n, qs[..k + 1]));
    }
  }

  /** The judgement of `ts + us` when all of `ts` and the first `k` of `us` pass. */
  lemma StopAfterPrefix(
    ts: seq<TestCase>, us: seq<TestCase>, limit: int, base: nat,
    os: seq<Try<SandboxResult>>, qs: seq<Try<SandboxResult>>, k: nat)
    requires |os| == |ts| && |qs| == |us| && k <= |us|
    requires forall j :: 0 <= j < |ts| ==> os[j].Returned? && Passes(ts[j], limit, os[j])
    requires forall j :: 0 <= j < k ==> qs[j].Returned? && Passes(us[j], limit, qs[j])
    requires k < |us| ==> !Passes(us[k], limit, qs[k])
    ensures Judgement(ts + us, limit, base, os + qs) ==
            if k == |us| then
              Returned(AcceptedResult(Rows(ts, limit, base, os) + Rows(us, limit, base + |ts|, qs)))
            else if qs[k].Threw? then Threw
            else
              Returned(RejectedResult(
                base + |ts| + k, Rows(ts, limit, base, os) + Rows(us, limit, base + |ts|, qs[..k + 1])))
  {
    hide CaseRow, Passes, AcceptedResult, RejectedResult, Rows, Judgement;
    JudgementAt(ts + us, limit, base, os + qs, |ts| + k);
    if k == |us| {
      RowsAppend(ts, us, limit, base, os, qs);
    } else if qs[k].Returned? {
      assert (os + qs)[..|ts| + k + 1] == os + qs[..k + 1];
      RowsAppend(ts, us, limit, base, os, qs[..k + 1]);
    }
  }

  /** The judgement when run `k` is known to be the first that does not pass. */
  lemma JudgementAt(tests: seq<TestCase>, limit: int, base: nat, outs: seq<Try<SandboxResult>>, k: nat)
    requires |outs| == |tests| && k <= |tests|
    requires forall j :: 0 <= j < k ==> outs[j].Returned? && Passes(tests[j], limit, outs[j])
    requires k < |tests| ==> !Passes(tests[k], limit, outs[k])
    ensures Judgement(tests, limit, base, outs) ==
            if k == |tests| then Returned(AcceptedResult(Rows(tests, limit, base, outs)))
            else if outs[k].Threw? then Threw
            else Returned(RejectedResult(base + k, Rows(tests, limit, base, outs[..k + 1])))
  {
    hide CaseRow, Passes;
    FirstStopUnique(tests, limit, outs, k);
  }

  lemma AppendAccepted(a: seq<CaseResult>, b: seq<CaseResult>)
    ensures AcceptedResult(a + b) == Append(AcceptedResult(a), AcceptedResult(b))
  {
    PeaksAppend(a, b);
  }

  lemma AppendRejected(i: nat, a: seq<CaseResult>, b: seq<CaseResult>)
    requires b != []
    ensures RejectedResult(i, a + b) == Append(AcceptedResult(a), RejectedResult(i, b))
  {
    PeaksAppend(a, b);
  }

  lemma RejectedStatus(tests: seq<TestCase>, limit: int, base: nat, outs: seq<Try<SandboxResult>>)
    requires |outs| == |tests|
    requires Judgement(tests, limit, base, outs).Returned?
    requires Judgement(tests, limit, base, outs).value.status == Accepted
    ensures FirstStop(tests, limit, outs) == |tests|
  {
    hide CaseRow, CaseVerdict, AcceptedResult, Rows, Passes;
    var k := FirstStop(tests, limit, outs);
    if k < |tests| {
      PassingReturns(tests, limit, outs, k);
      RejectingRow(tests, limit, base, outs, k);
    }
  }

  lemma RejectingRow(tests: seq<TestCase>, limit: int, base: nat, outs: seq<Try<SandboxResult>>, k: nat)
    requires |outs| == |tests| && k < |tests|
    requires forall j :: 0 <= j <= k ==> outs[j].Returned?
    requires !Passes(tests[k], limit, outs[k])
    ensures RejectedResult(base + k, Rows(tests, limit, base, outs[..k + 1])).status != Accepted
  {
    hide CaseRow, CaseVerdict, PeakTime, PeakMemory;
    RowStatus(tests[k], base + k, limit, outs[k].value);
    assert outs[..k + 1][k] == outs[k];
  }

  // ---------- case numbers ----------

  /** Decoding and judging agree on case numbers: a positive index of the message is kept,
      a missing, zero or negative one becomes the position, counted from 1. */
  lemma CaseNumbersAgree(raw: RawMessage, outs: seq<Try<SandboxResult>>)
    requires Complete(raw) && |outs| == |CasesOf(raw)|
    requires Judgement(Decode(raw).testcases, Decode(raw).memoryLimitKb, 0, outs).Returned?
    ensures var rows := Judgement(Decode(raw).testcases, Decode(raw).memoryLimitKb, 0, outs).value.cases;
      && |rows| <= |CasesOf(raw)|
      && forall i :: 0 <= i < |rows| ==>
           && !CasesOf(raw)[i].caseIndex.Null?
           && rows[i].caseIndex == match CasesOf(raw)[i].caseIndex
                                   case Present(k) => if k > 0 then k else i + 1
                                   case _ => i + 1
  {
    hide CaseVerdict, CaseError, Judgement;
    var sub := Decode(raw);
    RowsOfJudgement(sub.testcases, sub.memoryLimitKb, 0, outs);
    assert forall i :: 0 <= i < |CasesOf(raw)| ==> CompleteCase(CasesOf(raw)[i]);
  }
}
