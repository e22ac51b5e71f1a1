/** Queue messages: the decoded document and what `parse_message` makes of it. */
module Messages {
  import opened Base

  datatype TestCase = TestCase(testcaseId: nat, caseIndex: int, input: string, expected: string)

  datatype Submission = Submission(
    taskType: string,
    runId: nat,
    submissionId: nat,
    problemId: nat,
    language: string,
    submitMode: string,
    code: string,
    timeLimitMs: int,
    memoryLimitKb: int,
    testcases: seq<TestCase>)

  /** A member of a decoded JSON document. */
  datatype Member<+T> = Missing | Null | Present(value: T)

  /** A document whose members, where present and not null, have the types the code reads;
      a document that is not such is no document at all. */
  datatype RawCase = RawCase(
    testcaseId: Member<nat>, caseIndex: Member<int>, input: Member<string>, expected: Member<string>)

  datatype RawMessage = RawMessage(
    taskType: Member<string>,
    runId: Member<nat>,
    submissionId: Member<nat>,
    problemId: Member<nat>,
    language: Member<string>,
    submitMode: Member<string>,
    code: Member<string>,
    timeLimit: Member<int>,
    memoryLimit: Member<int>,
    testcases: Member<seq<RawCase>>)

  // ---------- specification ----------

  /** A member with a default may be missing, but must not be null. */
  function Or<T>(member: Member<T>, default: T): T {
    match member case Present(v) => v case _ => default
  }

  /** A missing or null list has no elements; that it must not be missing is said below. */
  function CasesOf(raw: RawMessage): seq<RawCase> {
    Or(raw.testcases, [])
  }

  /** A document is usable when its mandatory members are there and null stands only where
      the code allows it: for the three ids and for the list of test cases. */
  predicate Complete(raw: RawMessage) {
    && raw.problemId.Present? && raw.code.Present? && !raw.testcases.Missing?
    && !raw.taskType.Null? && !raw.language.Null? && !raw.submitMode.Null?
    && !raw.timeLimit.Null? && !raw.memoryLimit.Null?
    && forall i :: 0 <= i < |CasesOf(raw)| ==> CompleteCase(CasesOf(raw)[i])
  }

  predicate CompleteCase(raw: RawCase) {
    raw.input.Present? && raw.expected.Present? && !raw.caseIndex.Null?
  }

  function DecodeCase(raw: RawCase, position: nat): TestCase
    requires CompleteCase(raw)
  {
    TestCase(Or(raw.testcaseId, 0), Or(raw.caseIndex, position + 1), raw.input.value, raw.expected.value)
  }

  /** What the message with document `raw` asks for. */
  function Decode(raw: RawMessage): Submission
    requires Complete(raw)
  {
    var cases := CasesOf(raw);
    Submission(
      Or(raw.taskType, "SUBMISSION"), Or(raw.runId, 0), Or(raw.submissionId, 0), raw.problemId.value,
      Or(raw.language, "cpp"), Or(raw.submitMode, "FULL_PROGRAM"), raw.code.value,
      Or(raw.timeLimit, 1000), Or(raw.memoryLimit, 262144),
      seq(|cases|, i requires 0 <= i < |cases| => DecodeCase(cases[i], i)))
  }

  // ---------- the code ----------

  /** `j.value(key, default)`: it throws on null. */
  function Value<T>(member: Member<T>, default: T): Try<T> {
    match member
    case Missing => Returned(default)
    case Null => Threw
    case Present(v) => Returned(v)
  }

  /** `j.at(key)`: it throws when there is nothing to convert. */
  function At<T>(member: Member<T>): Try<T> {
    match member case Present(v) => Returned(v) case _ => Threw
  }

  /** One element of the list of test cases. */
  method ParseCase(tc: RawCase, position: nat) returns (t: Try<TestCase>)
    ensures t == if CompleteCase(tc) then Returned(DecodeCase(tc, position)) else Threw
  {
    var id := 0;
    if tc.testcaseId.Present? {
      id := tc.testcaseId.value;
    }
    var index := Value(tc.caseIndex, position + 1);
    var input, expected := At(tc.input), At(tc.expected);
    if index.Threw? || input.Threw? || expected.Threw? {
      return Threw;
    }
    t := Returned(TestCase(id, index.value, input.value, expected.value));
  }

  /** `parse_message` after JSON decoding; `doc` is `None` when decoding itself failed. Any
      exception makes the message unusable. */
  method ParseMessage(doc: Option<RawMessage>) returns (r: Option<Submission>)
    ensures r == if doc.Some? && Complete(doc.value) then Some(Decode(doc.value)) else None
  {
    if doc.None? {
      return None;
    }
    var raw := doc.value;
    var taskType := Value(raw.taskType, "SUBMISSION");
    var runId, submissionId := 0, 0;
    if raw.runId.Present? {
      runId := raw.runId.value;
    }
    if raw.submissionId.Present? {
      submissionId := raw.submissionId.value;
    }
    var problemId, language, submitMode := At(raw.problemId), Value(raw.language, "cpp"),
      Value(raw.submitMode, "FULL_PROGRAM");
    var code, timeLimit, memoryLimit := At(raw.code), Value(raw.timeLimit, 1000), Value(raw.memoryLimit, 262144);
    if || taskType.Threw? || problemId.Threw? || language.Threw? || submitMode.Threw?
       || code.Threw? || timeLimit.Threw? || memoryLimit.Threw? || raw.testcases.Missing? {
      return None;
    }
    var cases: seq<RawCase> := [];
    if raw.testcases.Present? {
      cases := raw.testcases.value;
    }
    var testcases: seq<TestCase> := [];
    for i := 0 to |cases|
      invariant |testcases| == i
      invariant forall j :: 0 <= j < i ==> CompleteCase(cases[j]) && testcases[j] == DecodeCase(cases[j], j)
    {
      var t := ParseCase(cases[i], |testcases|);
      if t.Threw? {
        assert !CompleteCase(CasesOf(raw)[i]);
        return None;
      }
      testcases := testcases + [t.value];
    }
    assert Complete(raw);
    assert testcases == Decode(raw).testcases;
    r := Some(Submission(taskType.value, runId, submissionId, problemId.value, language.value, submitMode.value,
                         code.value, timeLimit.value, memoryLimit.value, testcases));
  }

  // ---------- encoding and decoding ----------

  /** The document that gives every member of a submission. */
  function EncodeCase(tc: TestCase): RawCase {
    RawCase(Present(tc.testcaseId), Present(tc.caseIndex), Present(tc.input), Present(tc.expected))
  }

  function Encode(sub: Submission): RawMessage {
    RawMessage(
      Present(sub.taskType), Present(sub.runId), Present(sub.submissionId), Present(sub.problemId),
      Present(sub.language), Present(sub.submitMode), Present(sub.code), Present(sub.timeLimitMs),
      Present(sub.memoryLimitKb),
      Present(seq(|sub.testcases|, i requires 0 <= i < |sub.testcases| => EncodeCase(sub.testcases[i]))))
  }

  /** Every submission can be asked for, and decoding its document gives it back. */
  lemma EncodedDecodes(sub: Submission)
    ensures Complete(Encode(sub)) && Decode(Encode(sub)) == sub
  {
    assert Decode(Encode(sub)).testcases == sub.testcases;
  }

  /** What a missing member stands for; an id may be null as well, and so may the test cases. */
  lemma MissingMembers(raw: RawMessage)
    requires Complete(raw)
    ensures raw.taskType.Missing? ==> Decode(raw).taskType == "SUBMISSION"
    ensures raw.language.Missing? ==> Decode(raw).language == "cpp"
    ensures raw.submitMode.Missing? ==> Decode(raw).submitMode == "FULL_PROGRAM"
    ensures raw.timeLimit.Missing? ==> Decode(raw).timeLimitMs == 1000
    ensures raw.memoryLimit.Missing? ==> Decode(raw).memoryLimitKb == 262144
    ensures !raw.runId.Present? ==> Decode(raw).runId == 0
    ensures !raw.submissionId.Present? ==> Decode(raw).submissionId == 0
    ensures !raw.testcases.Present? ==> Decode(raw).testcases == []
    ensures forall i :: 0 <= i < |Decode(raw).testcases| ==>
              && (raw.testcases.value[i].caseIndex.Missing? ==> Decode(raw).testcases[i].caseIndex == i + 1)
              && (!raw.testcases.value[i].testcaseId.Present? ==> Decode(raw).testcases[i].testcaseId == 0)
  {
  }

  /** A member that is present is taken over as it is, whatever the other members are. */
  lemma PresentMembers(raw: RawMessage)
    requires Complete(raw)
    ensures var sub := Decode(raw);
      && (raw.taskType.Present? ==> sub.taskType == raw.taskType.value)
      && (raw.runId.Present? ==> sub.runId == raw.runId.value)
      && (raw.submissionId.Present? ==> sub.submissionId == raw.submissionId.value)
      && sub.problemId == raw.problemId.value && sub.code == raw.code.value
      && (raw.language.Present? ==> sub.language == raw.language.value)
      && (raw.timeLimit.Present? ==> sub.timeLimitMs == raw.timeLimit.value)
      && (raw.memoryLimit.Present? ==> sub.memoryLimitKb == raw.memoryLimit.value)
      && (raw.testcases.Present? ==>
            && |sub.testcases| == |raw.testcases.value|
            && forall i :: 0 <= i < |sub.testcases| ==>
                 && sub.testcases[i].input == raw.testcases.value[i].input.value
                 && sub.testcases[i].expected == raw.testcases.value[i].expected.value)
  {
  }

  predicate Unusable(tc: RawCase) {
    tc.caseIndex.Null? || !tc.input.Present? || !tc.expected.Present?
  }

  /** Exactly which documents are unusable. */
  lemma UnusableIff(raw: RawMessage)
    ensures !Complete(raw) <==>
            || raw.taskType.Null? || !raw.problemId.Present? || raw.language.Null? || raw.submitMode.Null?
            || !raw.code.Present? || raw.timeLimit.Null? || raw.memoryLimit.Null? || raw.testcases.Missing?
            || (raw.testcases.Present? &&
                exists i :: 0 <= i < |raw.testcases.value| && Unusable(raw.testcases.value[i]))
  {
    if raw.testcases.Present? {
      assert CasesOf(raw) == raw.testcases.value;
      assert forall i :: 0 <= i < |raw.testcases.value| ==>
        (CompleteCase(CasesOf(raw)[i]) <==> !Unusable(raw.testcases.value[i]));
    }
  }
}
