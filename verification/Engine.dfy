/** The box pool and the judge engine, as the sequential worker uses them. */
module Engine {
  import opened Base
  import opened Status
  import opened Meta
  import opened Commands
  import opened Boxes
  import opened Sandboxes
  import opened Messages
  import opened Judging
  import opened OutputCompare

  // ---------- the pool ----------

  /** The ids of the boxes that initialise, in order, out of `count` from `start` on. */
  function InitializedIds(m: Machine, start: int, count: nat): seq<int> {
    if count == 0 then []
    else
      var id := start + count - 1;
      InitializedIds(m, start, count - 1) + if m.initializes(id) then [id] else []
  }

  /** The pool starts with every box that initialises, each once. */
  lemma {:induction false} InitializedIdsExact(m: Machine, start: int, count: nat)
    ensures var ids := InitializedIds(m, start, count);
      && NoDuplicates(ids) && (forall i, j :: 0 <= i < j < |ids| ==> ids[i] < ids[j])
      && forall id :: id in ids <==> start <= id < start + count && m.initializes(id)
  {
    if count > 0 {
      InitializedIdsExact(m, start, count - 1);
      var before := InitializedIds(m, start, count - 1);
      assert forall i :: 0 <= i < |before| ==> before[i] in before && before[i] < start + count - 1;
    }
  }

  datatype PoolEvent = Took(id: int) | Gave(id: int)

  class BoxPool {
    var available: seq<int>
    var boxes: seq<Sandbox>
    ghost var events: seq<PoolEvent>

    constructor (disk: Disk, start: int, count: int)
      modifies disk
      ensures available == InitializedIds(disk.m, start, if count < 0 then 0 else count)
      ensures |boxes| == |available|
      ensures forall k :: 0 <= k < |boxes| ==> boxes[k].boxId == available[k] && boxes[k].disk == disk
      ensures forall id :: id in disk.boxes <==> id in old(disk.boxes) || id in available
      ensures forall k :: 0 <= k < |available| ==> available[k] in disk.boxes
      ensures events == []
    {
      boxes, available, events := [], [], [];
      new;
      var n := if count < 0 then 0 else count;
      for i := 0 to n
        invariant available == InitializedIds(disk.m, start, i) && |boxes| == |available|
        invariant forall k :: 0 <= k < |boxes| ==> boxes[k].boxId == available[k] && boxes[k].disk == disk
        invariant forall id :: id in disk.boxes <==> id in old(disk.boxes) || id in available
        invariant forall k :: 0 <= k < |available| ==> available[k] in disk.boxes
        invariant events == []
      {
        var box := new Sandbox(start + i, disk);
        var ok := box.Init();
        if ok {
          boxes := boxes + [box];
          available := available + [start + i];
        }
      }
    }

    /** `acquire` by the only thread: `None` when the wait on the condition variable would
        not end. */
    method Acquire() returns (id: Option<int>)
      modifies this
      ensures boxes == old(boxes)
      ensures old(available) == [] ==> id == None && available == [] && events == old(events)
      ensures old(available) != [] ==>
                && id == Some(old(available)[0]) && available == old(available)[1..]
                && events == old(events) + [Took(old(available)[0])]
    {
      if available == [] {
        return None;
      }
      id := Some(available[0]);
      events := events + [Took(available[0])];
      available := available[1..];
    }

    method Release(id: int)
      modifies this
      ensures boxes == old(boxes)
      ensures available == old(available) + [id] && events == old(events) + [Gave(id)]
    {
      available := available + [id];
      events := events + [Gave(id)];
    }
  }

  // ---------- the engine ----------

  /** A call of `judge`: it waits for a box for ever, or ends with a value or an exception. */
  datatype Call = Waits | Ends(outcome: Try<JudgeResult>)

  class JudgeEngine {
    const disk: Disk
    const pool: BoxPool

    ghost predicate Valid()
      reads pool, disk
    {
      forall k :: 0 <= k < |pool.available| ==> pool.available[k] in disk.boxes
    }

    constructor (disk: Disk, start: int, maxBoxes: int)
      modifies disk
      ensures Valid() && this.disk == disk && fresh(pool)
      ensures pool.available == InitializedIds(disk.m, start, if maxBoxes < 0 then 0 else maxBoxes)
    {
      this.disk := disk;
      pool := new BoxPool(disk, start, maxBoxes);
    }

    /** `judge`: one box is taken from the front of the queue and goes to its back at every
        one of the six exits; only an exception keeps it. */
    method Judge(sub: Submission) returns (call: Call)
      requires Valid()
      modifies pool, disk
      ensures Valid() && pool.boxes == old(pool.boxes)
      ensures old(pool.available) == [] ==>
                && call == Waits && pool.available == []
                && disk.boxes == old(disk.boxes) && pool.events == old(pool.events)
      ensures old(pool.available) != [] ==>
                var b := old(pool.available)[0];
                var (outcome, box) := JudgeOn(disk.m, b, old(disk.boxes)[b], sub);
                && call == Ends(outcome)
                && disk.boxes == old(disk.boxes)[b := box]
                && pool.available == old(pool.available)[1..] + (if outcome.Returned? then [b] else [])
                && pool.events == old(pool.events) + [Took(b)] + (if outcome.Returned? then [Gave(b)] else [])
    {
      hide CompileOn, RunOn, CompileWith, RunWith, OpsOf, ClassOf, LanguageOf, CasesWith;
      var id := pool.Acquire();
      if id.None? {
        return Waits;
      }
      var b := id.value;
      var sandbox := new Sandbox(b, disk);
      ghost var box0 := disk.boxes[b];
      var compile := sandbox.Compile(sub.language, sub.code);
      OpsCompile(disk.m, b, JobOf(sub), box0);
      ClassOfCase(sub.language, sub.code);
      if compile.Threw? {
        return Ends(Threw);
      }
      if compile.value.exitCode != 0 {
        pool.Release(b);
        return Ends(Returned(CompileErrorResult(compile.value)));
      }
      call := RunCases(sandbox, sub);
    }

    /** The loop of `judge` over the test cases, with its five exits. */
    method RunCases(sandbox: Sandbox, sub: Submission) returns (call: Call)
      requires Valid() && sandbox.Valid() && sandbox.disk == disk
      requires sandbox.javaMainClass == ClassOf(LanguageOf(sub.language), sub.code)
      modifies pool, disk
      ensures Valid() && pool.boxes == old(pool.boxes)
      ensures var b := sandbox.boxId;
              var ops := OpsOf(disk.m, b, JobOf(sub));
              var (outcome, box) := CasesWith(ops, sub.testcases, sub.memoryLimitKb, old(disk.boxes)[b], 0, []);
              && call == Ends(outcome)
              && disk.boxes == old(disk.boxes)[b := box]
              && pool.available == old(pool.available) + (if outcome.Returned? then [b] else [])
              && pool.events == old(pool.events) + (if outcome.Returned? then [Gave(b)] else [])
    {
      hide RunOn, RunWith, OpsOf, ClassOf, LanguageOf, PeakTime, PeakMemory, SameOutput, CaseError, RecordedIndex,
        JobOf, CasesWith;
      var b := sandbox.boxId;
      ghost var ops := OpsOf(disk.m, b, JobOf(sub));
      ghost var tests, limit := sub.testcases, sub.memoryLimitKb;
      ghost var whole := CasesWith(ops, tests, limit, disk.boxes[b], 0, []);
      var maxTime, maxMemory := 0, 0;
      var cases: seq<CaseResult> := [];
      PeaksOfNone();
      for i := 0 to |sub.testcases|
        invariant Valid() && sandbox.Valid()
        invariant disk.boxes == old(disk.boxes)[b := disk.boxes[b]]
        invariant pool.boxes == old(pool.boxes) && pool.available == old(pool.available)
        invariant pool.events == old(pool.events)
        invariant maxTime == PeakTime(cases) && maxMemory == PeakMemory(cases)
        invariant CasesWith(ops, tests, limit, disk.boxes[b], i, cases) == whole
      {
        var tc := sub.testcases[i];
        ghost var before := disk.boxes[b];
        var out := sandbox.Run(sub.language, sub.timeLimitMs, sub.memoryLimitKb, tc.input);
        RunOfCase(disk.m, b, sub, before, tc.input);
        CasesFrom(ops, tests, limit, before, i, cases);
        if out.Threw? {
          return Ends(Threw);
        }
        var run := out.value;
        if run.timeMs > maxTime {
          maxTime := run.timeMs;
        }
        if run.memoryKb > maxMemory {
          maxMemory := run.memoryKb;
        }
        var row := CaseResult(tc.testcaseId, RecordedIndex(tc, i), SystemError, run.timeMs, run.memoryKb,
                              tc.input, run.stdout, tc.expected, "");
        PeaksOfOneMore(cases, CaseRow(tc, i, limit, run));

        if run.timedOut || run.status == "TO" {
          row := row.(status := TimeLimitExceeded, error := CaseError(TimeLimitExceeded, i, run));
          pool.Release(b);
          return Ends(Returned(JudgeResult(TimeLimitExceeded, maxTime, maxMemory, row.error, "", i, cases + [row])));
        }
        if run.memoryKb > sub.memoryLimitKb {
          row := row.(status := MemoryLimitExceeded, error := CaseError(MemoryLimitExceeded, i, run));
          pool.Release(b);
          return Ends(Returned(JudgeResult(MemoryLimitExceeded, maxTime, maxMemory, row.error, "", i, cases + [row])));
        }
        if run.exitCode != 0 || run.signal != 0 {
          row := row.(status := RuntimeError, error := CaseError(RuntimeError, i, run));
          pool.Release(b);
          return Ends(Returned(JudgeResult(RuntimeError, maxTime, maxMemory, row.error, "", i, cases + [row])));
        }
        var same := CompareOutput(tc.expected, run.stdout);
        if !same {
          row := row.(status := WrongAnswer, error := CaseError(WrongAnswer, i, run));
          pool.Release(b);
          return Ends(Returned(JudgeResult(WrongAnswer, maxTime, maxMemory, row.error, "", i, cases + [row])));
        }
        AcceptedHasNoError(i, run);
        row := row.(status := Accepted);
        cases := cases + [row];
      }
      CasesDone(ops, tests, limit, disk.boxes[b], cases);
      pool.Release(b);
      return Ends(Returned(JudgeResult(Accepted, maxTime, maxMemory, "", "", -1, cases)));
    }
  }

  lemma ClassOfCase(language: string, code: string)
    ensures ClassOf(LanguageOf(language), code) == if LanguageOf(language) == Java then JavaClassName(code) else "Main"
  {
  }

  lemma AcceptedHasNoError(i: nat, run: SandboxResult)
    ensures CaseError(Accepted, i, run) == ""
  {
  }

  lemma PeaksOfNone()
    ensures PeakTime([]) == 0 && PeakMemory([]) == 0
  {
  }

  lemma PeaksOfOneMore(cases: seq<CaseResult>, row: CaseResult)
    ensures PeakTime(cases + [row]) == Max(row.timeMs, PeakTime(cases))
    ensures PeakMemory(cases + [row]) == Max(row.memoryKb, PeakMemory(cases))
  {
    assert (cases + [row])[..|cases|] == cases;
  }

  /** What a run of the sandbox is in terms of the operations of the call. */
  lemma RunOfCase(m: Machine, b: int, sub: Submission, box: Box, input: string)
    ensures RunWith(OpsOf(m, b, JobOf(sub)), box, input)
         == RunOn(m, b, box, RunRequest(sub.language, ClassOf(LanguageOf(sub.language), sub.code),
                                        sub.timeLimitMs, sub.memoryLimitKb, input))
  {
    hide RunWith, RunOn, OpsOf, ClassOf, LanguageOf;
    OpsRun(m, b, JobOf(sub), box, input);
  }

  // ---------- round robin ----------

  /** The queue after `n` calls that each take the front box and give it back. */
  function QueueAfter(queue: seq<int>, n: nat): seq<int>
    requires queue != []
    ensures QueueAfter(queue, n) != []
  {
    if n == 0 then queue
    else
      var q := QueueAfter(queue, n - 1);
      q[1..] + [q[0]]
  }

  /** Boxes are used in turn: call number `n` runs in box `n mod k` of the first queue. */
  lemma {:induction false} RoundRobin(queue: seq<int>, n: nat)
    requires queue != []
    ensures QueueAfter(queue, n) == queue[n % |queue|..] + queue[..n % |queue|]
    ensures QueueAfter(queue, n)[0] == queue[n % |queue|]
  {
    if n > 0 {
      RoundRobin(queue, n - 1);
      var k := (n - 1) % |queue|;
      NextRemainder(n - 1, |queue|);
      assert QueueAfter(queue, n - 1) == queue[k..] + queue[..k];
      assert (queue[k..] + queue[..k])[1..] == queue[k + 1..] + queue[..k];
      assert (queue[k + 1..] + queue[..k]) + [queue[k]] == queue[k + 1..] + queue[..k + 1];
      if k + 1 == |queue| {
        assert queue[k + 1..] + queue[..k + 1] == queue == queue[0..] + queue[..0];
      }
    }
  }

  lemma NextRemainder(n: nat, k: nat)
    requires k > 0
    ensures (n + 1) % k == if n % k + 1 == k then 0 else n % k + 1
  {
    var q, r := n / k, n % k;
    assert n + 1 == k * q + (r + 1);
    if r + 1 == k {
      assert n + 1 == k * (q + 1) + 0;
      RemainderUnique(n + 1, k, q + 1, 0);
    } else {
      RemainderUnique(n + 1, k, q, r + 1);
    }
  }

  lemma RemainderUnique(n: nat, k: nat, q: nat, r: nat)
    requires k > 0 && r < k && n == k * q + r
    ensures n % k == r
  {
    var q', r' := n / k, n % k;
    if q > q' {
      AtLeastOneMore(k, q', q);
    } else if q < q' {
      AtLeastOneMore(k, q, q');
    }
  }

  lemma {:induction false} AtLeastOneMore(k: nat, a: nat, b: nat)
    requires a < b
    ensures k * b >= k * a + k
    decreases b
  {
    if a + 1 < b {
      AtLeastOneMore(k, a, b - 1);
      assert k * b == k * (b - 1) + k;
    } else {
      assert k * b == k * a + k;
    }
  }
}
