/** Any number of threads that judge at once: the box pool with its mutex and condition
    variable, and the interleaved work in the boxes, as a step system. */
module Concurrency {
  import opened Base
  import opened Meta
  import opened Boxes
  import opened Messages
  import opened Judging

  // ---------- one call of `judge`, operation by operation ----------

  datatype Pc =
    | CompilePrepare
    | CompileInvoke
    | CompileRead(ran: bool)
    | RunPrepare(i: nat, cases: seq<CaseResult>)
    | RunInvoke(i: nat, cases: seq<CaseResult>)
    | RunRead(i: nat, cases: seq<CaseResult>, ran: bool)
    | Finished(outcome: Try<JudgeResult>)

  predicate PcOk(tests: seq<TestCase>, pc: Pc) {
    (pc.RunPrepare? || pc.RunInvoke? || pc.RunRead?) ==> pc.i < |tests|
  }

  function AtCase(tests: seq<TestCase>, i: nat, cases: seq<CaseResult>): Pc {
    if i < |tests| then RunPrepare(i, cases) else Finished(Returned(AcceptedResult(cases)))
  }

  function OnCompiled(tests: seq<TestCase>, out: Try<SandboxResult>): Pc {
    match AfterCompile(out) case Some(r) => Finished(r) case None => AtCase(tests, 0, [])
  }

  function OnRun(tests: seq<TestCase>, limit: int, i: nat, cases: seq<CaseResult>, out: Try<SandboxResult>): Pc
    requires i < |tests|
  {
    match AfterRun(tests, limit, i, cases, out)
    case Some(r) => Finished(r)
    case None => AtCase(tests, i + 1, MoreCases(tests, limit, i, cases, out.value))
  }

  /** One atomic operation on the box. */
  function NextPc(ops: BoxOps, tests: seq<TestCase>, limit: int, pc: Pc, box: Box): (Pc, Box)
    requires PcOk(tests, pc)
  {
    match pc
    case CompilePrepare =>
      var (failure, box') := ops.prepareCompile(box);
      (match failure case Some(r) => OnCompiled(tests, Returned(r)) case None => CompileInvoke, box')
    case CompileInvoke =>
      var (ran, box') := ops.invokeCompiler(box);
      (CompileRead(ran), box')
    case CompileRead(ran) => (OnCompiled(tests, ops.readCompile(box, ran)), box)
    case RunPrepare(i, cases) =>
      var (failure, box') := ops.prepareRun(box, tests[i].input);
      (match failure case Some(r) => OnRun(tests, limit, i, cases, Returned(r)) case None => RunInvoke(i, cases), box')
    case RunInvoke(i, cases) =>
      var (ran, box') := ops.invokeProgram(box, tests[i].input);
      (RunRead(i, cases, ran), box')
    case RunRead(i, cases, ran) => (OnRun(tests, limit, i, cases, ops.readRun(box, ran)), box)
    case Finished(_) => (pc, box)
  }

  /** What the call will end with, and its box then, if nobody else touches the box. */
  function Rest(ops: BoxOps, tests: seq<TestCase>, limit: int, pc: Pc, box: Box): (Try<JudgeResult>, Box)
    requires PcOk(tests, pc)
  {
    match pc
    case CompilePrepare => JudgeWith(ops, tests, limit, box)
    case CompileInvoke =>
      var (ran, box') := ops.invokeCompiler(box);
      RestOfCompiled(ops, tests, limit, ops.readCompile(box', ran), box')
    case CompileRead(ran) => RestOfCompiled(ops, tests, limit, ops.readCompile(box, ran), box)
    case RunPrepare(i, cases) => CasesWith(ops, tests, limit, box, i, cases)
    case RunInvoke(i, cases) =>
      var (ran, box') := ops.invokeProgram(box, tests[i].input);
      RestOfRun(ops, tests, limit, i, cases, ops.readRun(box', ran), box')
    case RunRead(i, cases, ran) => RestOfRun(ops, tests, limit, i, cases, ops.readRun(box, ran), box)
    case Finished(outcome) => (outcome, box)
  }

  function RestOfCompiled(ops: BoxOps, tests: seq<TestCase>, limit: int, out: Try<SandboxResult>, box: Box)
    : (Try<JudgeResult>, Box)
  {
    match AfterCompile(out) case Some(r) => (r, box) case None => CasesWith(ops, tests, limit, box, 0, [])
  }

  function RestOfRun(
    ops: BoxOps, tests: seq<TestCase>, limit: int, i: nat, cases: seq<CaseResult>, out: Try<SandboxResult>, box: Box)
    : (Try<JudgeResult>, Box)
    requires i < |tests|
  {
    match AfterRun(tests, limit, i, cases, out)
    case Some(r) => (r, box)
    case None => CasesWith(ops, tests, limit, box, i + 1, MoreCases(tests, limit, i, cases, out.value))
  }

  lemma AtCaseMeaning(ops: BoxOps, tests: seq<TestCase>, limit: int, i: nat, cases: seq<CaseResult>, box: Box)
    requires i <= |tests|
    ensures Rest(ops, tests, limit, AtCase(tests, i, cases), box) == CasesWith(ops, tests, limit, box, i, cases)
  {
  }

  lemma OnRunMeaning(
    ops: BoxOps, tests: seq<TestCase>, limit: int, i: nat, cases: seq<CaseResult>, out: Try<SandboxResult>, box: Box)
    requires i < |tests|
    ensures PcOk(tests, OnRun(tests, limit, i, cases, out))
    ensures Rest(ops, tests, limit, OnRun(tests, limit, i, cases, out), box)
         == RestOfRun(ops, tests, limit, i, cases, out, box)
  {
    hide CasesWith, MoreCases;
    if AfterRun(tests, limit, i, cases, out).None? {
      AtCaseMeaning(ops, tests, limit, i + 1, MoreCases(tests, limit, i, cases, out.value), box);
    }
  }

  lemma OnCompiledMeaning(ops: BoxOps, tests: seq<TestCase>, limit: int, out: Try<SandboxResult>, box: Box)
    ensures PcOk(tests, OnCompiled(tests, out))
    ensures Rest(ops, tests, limit, OnCompiled(tests, out), box) == RestOfCompiled(ops, tests, limit, out, box)
  {
    hide CasesWith;
    AtCaseMeaning(ops, tests, limit, 0, [], box);
  }

  /** One operation changes nothing about what the call will end with. */
  lemma OperationKeepsMeaning(ops: BoxOps, tests: seq<TestCase>, limit: int, pc: Pc, box: Box)
    requires PcOk(tests, pc)
    ensures var (pc', box') := NextPc(ops, tests, limit, pc, box);
      PcOk(tests, pc') && Rest(ops, tests, limit, pc', box') == Rest(ops, tests, limit, pc, box)
  {
    hide AfterRun, AfterCompile, MoreCases, OnRun, OnCompiled;
    match pc
    case CompilePrepare =>
      var (failure, box') := ops.prepareCompile(box);
      if failure.Some? {
        OnCompiledMeaning(ops, tests, limit, Returned(failure.value), box');
      }
    case CompileRead(ran) => OnCompiledMeaning(ops, tests, limit, ops.readCompile(box, ran), box);
    case RunPrepare(i, cases) =>
      var (failure, box') := ops.prepareRun(box, tests[i].input);
      if failure.Some? {
        OnRunMeaning(ops, tests, limit, i, cases, Returned(failure.value), box');
      }
    case RunRead(i, cases, ran) => OnRunMeaning(ops, tests, limit, i, cases, ops.readRun(box, ran), box);
    case _ =>
  }

  // ---------- the system ----------

  /** What never changes: the machine, the boxes the pool was built with, and one
      submission for each thread. */
  datatype Config = Config(m: Machine, ids: seq<int>, tasks: seq<Submission>)

  /** A thread has not asked for a box yet; waits on the condition variable; was woken and
      has not re-locked the mutex; works in a box (`entry` is what the box held when it was
      acquired); has returned; or was left by an exception, the box never given back. */
  datatype Thread =
    | Outside
    | Blocked
    | Woken
    | Working(b: int, entry: Box, pc: Pc)
    | Judged(b: int, entry: Box, result: JudgeResult)
    | Failed(b: int, entry: Box)

  datatype State = State(available: seq<int>, threads: seq<Thread>, boxes: map<int, Box>)

  /** `Acquire` is the first test of the predicate in `wait`, `Resume` the test after a
      wake-up; `Release` names the waiter that `notify_one` wakes, if there is any. */
  datatype Action =
    | Acquire(t: nat)
    | Resume(t: nat)
    | SpuriousWake(t: nat)
    | Operate(t: nat)
    | Release(t: nat, waiter: Option<nat>)
    | Unwind(t: nat)

  function TaskNext(c: Config, t: nat, b: int, pc: Pc, box: Box): (Pc, Box)
    requires t < |c.tasks| && PcOk(c.tasks[t].testcases, pc)
  {
    NextPc(OpsOf(c.m, b, JobOf(c.tasks[t])), c.tasks[t].testcases, c.tasks[t].memoryLimitKb, pc, box)
  }

  function TaskRest(c: Config, t: nat, b: int, pc: Pc, box: Box): (Try<JudgeResult>, Box)
    requires t < |c.tasks| && PcOk(c.tasks[t].testcases, pc)
  {
    Rest(OpsOf(c.m, b, JobOf(c.tasks[t])), c.tasks[t].testcases, c.tasks[t].memoryLimitKb, pc, box)
  }

  predicate IsBlocked(s: State, t: nat) {
    t < |s.threads| && s.threads[t].Blocked?
  }

  ghost predicate SomeBlocked(s: State) {
    exists t: nat :: IsBlocked(s, t)
  }

  ghost predicate Enabled(c: Config, s: State, a: Action) {
    && |s.threads| == |c.tasks|
    && a.t < |s.threads|
    && var th := s.threads[a.t];
       match a
       case Acquire(_) => th.Outside?
       case Resume(_) => th.Woken?
       case SpuriousWake(_) => th.Blocked?
       case Operate(t) =>
         th.Working? && !th.pc.Finished? && PcOk(c.tasks[t].testcases, th.pc) && th.b in s.boxes
       case Release(_, waiter) =>
         && th.Working? && th.pc.Finished? && th.pc.outcome.Returned?
         && (match waiter case Some(u) => IsBlocked(s, u) case None => !SomeBlocked(s))
       case Unwind(_) => th.Working? && th.pc.Finished? && th.pc.outcome.Threw?
  }

  /** The test of `!available_.empty()` under the mutex: take the front box or wait. */
  function TakeOrWait(s: State, t: nat): State
    requires t < |s.threads|
    requires forall k :: 0 <= k < |s.available| ==> s.available[k] in s.boxes
  {
    if s.available == [] then s.(threads := s.threads[t := Blocked])
    else
      var b := s.available[0];
      s.(available := s.available[1..], threads := s.threads[t := Working(b, s.boxes[b], CompilePrepare)])
  }

  ghost predicate BoxesExist(s: State) {
    forall k :: 0 <= k < |s.available| ==> s.available[k] in s.boxes
  }

  ghost function Apply(c: Config, s: State, a: Action): State
    requires Enabled(c, s, a) && BoxesExist(s)
  {
    var th := s.threads[a.t];
    match a
    case Acquire(t) => TakeOrWait(s, t)
    case Resume(t) => TakeOrWait(s, t)
    case SpuriousWake(t) => s.(threads := s.threads[t := Woken])
    case Operate(t) =>
      var (pc, box) := TaskNext(c, t, th.b, th.pc, s.boxes[th.b]);
      s.(threads := s.threads[t := th.(pc := pc)], boxes := s.boxes[th.b := box])
    case Release(t, waiter) =>
      var threads := s.threads[t := Judged(th.b, th.entry, th.pc.outcome.value)];
      s.(available := s.available + [th.b],
         threads := match waiter case Some(u) => threads[u := Woken] case None => threads)
    case Unwind(t) => s.(threads := s.threads[t := Failed(th.b, th.entry)])
  }

  // ---------- the invariant ----------

  predicate Holds(th: Thread, b: int) {
    (th.Working? || th.Failed?) && th.b == b
  }

  /** Every box of the pool is in exactly one place: once in the queue, or with exactly one
      thread. */
  ghost predicate Conserved(c: Config, s: State) {
    && |s.threads| == |c.tasks|
    && NoDuplicates(s.available)
    && (forall k :: 0 <= k < |s.available| ==> s.available[k] in c.ids && s.available[k] in s.boxes)
    && (forall k, t :: 0 <= k < |s.available| && 0 <= t < |s.threads| ==> !Holds(s.threads[t], s.available[k]))
    && (forall t :: 0 <= t < |s.threads| && (s.threads[t].Working? || s.threads[t].Failed? || s.threads[t].Judged?) ==>
          s.threads[t].b in c.ids && s.threads[t].b in s.boxes)
    && (forall t, u :: 0 <= t < u < |s.threads| && (s.threads[t].Working? || s.threads[t].Failed?) ==>
          !Holds(s.threads[u], s.threads[t].b))
    && (forall b :: b in c.ids ==> b in s.available || exists t :: 0 <= t < |s.threads| && Holds(s.threads[t], b))
  }

  function WokenFlag(th: Thread): nat {
    if th.Woken? then 1 else 0
  }

  function WokenFlags(threads: seq<Thread>): seq<nat> {
    seq(|threads|, i requires 0 <= i < |threads| => WokenFlag(threads[i]))
  }

  function Sum(ns: seq<nat>): nat {
    if ns == [] then 0 else ns[0] + Sum(ns[1..])
  }

  /** No lost wake-up: while a thread waits, every available box has a woken thread that
      has yet to look for it. */
  ghost predicate NoLostWakeUp(s: State) {
    SomeBlocked(s) ==> |s.available| <= Sum(WokenFlags(s.threads))
  }

  /** A thread at work, or done, is on course for the result it would get alone. */
  ghost predicate OnCourse(c: Config, s: State, t: nat)
    requires t < |s.threads| == |c.tasks|
  {
    var th := s.threads[t];
    match th
    case Working(b, entry, pc) =>
      && b in s.boxes && PcOk(c.tasks[t].testcases, pc)
      && TaskRest(c, t, b, pc, s.boxes[b]) == JudgeOn(c.m, b, entry, c.tasks[t])
    case Judged(b, entry, result) => JudgeOn(c.m, b, entry, c.tasks[t]).0 == Returned(result)
    case Failed(b, entry) => JudgeOn(c.m, b, entry, c.tasks[t]).0 == Threw
    case _ => true
  }

  ghost predicate Inv(c: Config, s: State) {
    && Conserved(c, s)
    && NoLostWakeUp(s)
    && forall t :: 0 <= t < |s.threads| ==> OnCourse(c, s, t)
  }

  /** A pool just built, and no thread inside `judge`. */
  ghost predicate Initial(c: Config, s: State) {
    && NoDuplicates(c.ids)
    && s.available == c.ids
    && (forall k :: 0 <= k < |c.ids| ==> c.ids[k] in s.boxes)
    && |s.threads| == |c.tasks|
    && forall t :: 0 <= t < |s.threads| ==> s.threads[t] == Outside
  }

  // ---------- preservation ----------

  lemma {:induction false} SumUpdate(ns: seq<nat>, i: nat, n: nat)
    requires i < |ns|
    ensures Sum(ns[i := n]) == Sum(ns) - ns[i] + n
  {
    if i == 0 {
      assert ns[0 := n][1..] == ns[1..];
    } else {
      SumUpdate(ns[1..], i - 1, n);
      assert ns[i := n][1..] == ns[1..][i - 1 := n];
    }
  }

  lemma WokenUpdate(threads: seq<Thread>, t: nat, th: Thread)
    requires t < |threads|
    ensures Sum(WokenFlags(threads[t := th])) == Sum(WokenFlags(threads)) - WokenFlag(threads[t]) + WokenFlag(th)
  {
    SumUpdate(WokenFlags(threads), t, WokenFlag(th));
    assert WokenFlags(threads[t := th]) == WokenFlags(threads)[t := WokenFlag(th)];
  }

  lemma StartsWell(c: Config, s: State)
    requires Initial(c, s)
    ensures Inv(c, s)
  {
    hide JudgeOn, TaskRest;
  }

  /** A change that moves no box keeps every box in its place. */
  lemma SamePlaces(c: Config, s: State, s': State)
    requires Conserved(c, s)
    requires s'.available == s.available && |s'.threads| == |s.threads|
    requires forall b :: b in s.boxes ==> b in s'.boxes
    requires forall t, b :: 0 <= t < |s.threads| ==> (Holds(s'.threads[t], b) <==> Holds(s.threads[t], b))
    requires forall t :: 0 <= t < |s.threads| && s'.threads[t].Judged? ==> s'.threads[t] == s.threads[t]
    ensures Conserved(c, s')
  {
    forall t | 0 <= t < |s'.threads| && (s'.threads[t].Working? || s'.threads[t].Failed?)
      ensures s'.threads[t].b in c.ids && s'.threads[t].b in s'.boxes
      ensures Holds(s.threads[t], s'.threads[t].b)
    {
      assert Holds(s'.threads[t], s'.threads[t].b);
    }
    forall b | b in c.ids ensures b in s'.available || exists t :: 0 <= t < |s'.threads| && Holds(s'.threads[t], b) {
      if b !in s.available {
        var t :| 0 <= t < |s.threads| && Holds(s.threads[t], b);
        assert Holds(s'.threads[t], b);
      }
    }
  }

  /** The front box moves from the queue to a thread that held none. */
  lemma TakingConserves(c: Config, s: State, t: nat)
    requires Conserved(c, s) && t < |s.threads|
    requires s.threads[t].Outside? || s.threads[t].Woken?
    ensures Conserved(c, TakeOrWait(s, t))
  {
    var s' := TakeOrWait(s, t);
    if s.available == [] {
      SamePlaces(c, s, s');
    } else {
      forall b | b in c.ids ensures b in s'.available || exists u :: 0 <= u < |s'.threads| && Holds(s'.threads[u], b) {
        if b in s.available {
          if b == s.available[0] {
            assert Holds(s'.threads[t], b);
          }
        } else {
          var u :| 0 <= u < |s.threads| && Holds(s.threads[u], b);
          assert Holds(s'.threads[u], b);
        }
      }
    }
  }

  /** A box moves from a thread to the back of the queue. */
  lemma GivingConserves(c: Config, s: State, t: nat, th: Thread)
    requires Conserved(c, s) && t < |s.threads|
    requires s.threads[t].Working? && th.Judged? && th.b == s.threads[t].b
    ensures Conserved(c, s.(available := s.available + [th.b], threads := s.threads[t := th]))
  {
    var s' := s.(available := s.available + [th.b], threads := s.threads[t := th]);
    forall b | b in c.ids ensures b in s'.available || exists u :: 0 <= u < |s'.threads| && Holds(s'.threads[u], b) {
      if b !in s.available {
        var u :| 0 <= u < |s.threads| && Holds(s.threads[u], b);
        if u == t {
          assert s'.available[|s.available|] == b;
        } else {
          assert Holds(s'.threads[u], b);
        }
      }
    }
    forall k, u | 0 <= k < |s'.available| && 0 <= u < |s'.threads|
      ensures !Holds(s'.threads[u], s'.available[k])
    {
      if k == |s.available| && u != t {
        assert Holds(s.threads[t], th.b);
      }
    }
  }

  lemma KeepsConserved(c: Config, s: State, a: Action)
    requires Conserved(c, s) && Enabled(c, s, a)
    ensures Conserved(c, Apply(c, s, a))
  {
    hide TaskNext, PcOk, SomeBlocked, Conserved;
    assert BoxesExist(s) by { BoxesThere(c, s); }
    match a
    case Acquire(t) => TakingConserves(c, s, t);
    case Resume(t) => TakingConserves(c, s, t);
    case Release(t, waiter) =>
      var th := Judged(s.threads[t].b, s.threads[t].entry, s.threads[t].pc.outcome.value);
      var s1 := s.(available := s.available + [th.b], threads := s.threads[t := th]);
      GivingConserves(c, s, t, th);
      if waiter.Some? {
        assert IsBlocked(s, waiter.value);
        SamePlaces(c, s1, Apply(c, s, a));
      }
    case _ => SamePlaces(c, s, Apply(c, s, a));
  }

  lemma BoxesThere(c: Config, s: State)
    requires Conserved(c, s)
    ensures BoxesExist(s)
  {
  }

  lemma KeepsNoLostWakeUp(c: Config, s: State, a: Action)
    requires NoLostWakeUp(s) && Enabled(c, s, a) && BoxesExist(s)
    ensures NoLostWakeUp(Apply(c, s, a))
  {
    hide TaskNext, PcOk, WokenFlags;
    var s' := Apply(c, s, a);
    WokenUpdate(s.threads, a.t, s'.threads[a.t]);
    if a.Release? && a.waiter.Some? {
      var threads := s.threads[a.t := s'.threads[a.t]];
      WokenUpdate(threads, a.waiter.value, Woken);
      assert IsBlocked(s, a.waiter.value);
    }
    if SomeBlocked(s') {
      var u: nat :| IsBlocked(s', u);
      if u != a.t {
        assert IsBlocked(s, u);
      }
    }
  }

  lemma TaskOperation(c: Config, t: nat, b: int, pc: Pc, box: Box)
    requires t < |c.tasks| && PcOk(c.tasks[t].testcases, pc)
    ensures var (pc', box') := TaskNext(c, t, b, pc, box);
      PcOk(c.tasks[t].testcases, pc') && TaskRest(c, t, b, pc', box') == TaskRest(c, t, b, pc, box)
  {
    hide OpsOf, NextPc, Rest;
    OperationKeepsMeaning(OpsOf(c.m, b, JobOf(c.tasks[t])), c.tasks[t].testcases, c.tasks[t].memoryLimitKb, pc, box);
  }

  lemma TaskEnds(c: Config, t: nat, b: int, box: Box)
    requires t < |c.tasks|
    ensures TaskRest(c, t, b, CompilePrepare, box) == JudgeOn(c.m, b, box, c.tasks[t])
    ensures forall outcome :: TaskRest(c, t, b, Finished(outcome), box) == (outcome, box)
  {
    hide OpsOf, JudgeWith;
  }

  /** No action of another thread changes the box a thread works in. */
  lemma OthersLeaveBoxAlone(c: Config, s: State, a: Action, t: nat)
    requires Conserved(c, s) && Enabled(c, s, a)
    requires t < |s.threads| && t != a.t && s.threads[t].Working?
    ensures var s' := Apply(c, s, a);
      s'.threads[t] == s.threads[t] && s'.boxes[s.threads[t].b] == s.boxes[s.threads[t].b]
  {
    hide TaskNext, PcOk, SomeBlocked;
    if a.Operate? {
      assert s.threads[a.t].b != s.threads[t].b;
    }
  }

  lemma KeepsOnCourse(c: Config, s: State, a: Action, t: nat)
    requires Inv(c, s) && Enabled(c, s, a) && t < |s.threads|
    ensures OnCourse(c, Apply(c, s, a), t)
  {
    hide TaskNext, TaskRest, JudgeOn, NoLostWakeUp, SomeBlocked;
    var s' := Apply(c, s, a);
    var th := s.threads[t];
    assert OnCourse(c, s, t);
    if th.Working? {
      TaskEnds(c, t, th.b, s.boxes[th.b]);
      if a.t == t {
        if a.Operate? {
          TaskOperation(c, t, th.b, th.pc, s.boxes[th.b]);
        }
      } else {
        OthersLeaveBoxAlone(c, s, a, t);
      }
    } else if a.t == t && s.available != [] {
      TaskEnds(c, t, s.available[0], s.boxes[s.available[0]]);
    }
  }

  lemma KeepsInv(c: Config, s: State, a: Action)
    requires Inv(c, s) && Enabled(c, s, a)
    ensures Inv(c, Apply(c, s, a))
  {
    hide Enabled, Apply, OnCourse, NoLostWakeUp;
    KeepsConserved(c, s, a);
    KeepsNoLostWakeUp(c, s, a);
    forall t | 0 <= t < |s.threads| ensures OnCourse(c, Apply(c, s, a), t) {
      KeepsOnCourse(c, s, a, t);
    }
  }

  // ---------- runs ----------

  ghost predicate Runs(c: Config, s: State, acts: seq<Action>)
    decreases |acts|
  {
    acts == [] || (BoxesExist(s) && Enabled(c, s, acts[0]) && Runs(c, Apply(c, s, acts[0]), acts[1..]))
  }

  ghost function After(c: Config, s: State, acts: seq<Action>): State
    requires Runs(c, s, acts)
    decreases |acts|
  {
    if acts == [] then s else After(c, Apply(c, s, acts[0]), acts[1..])
  }

  lemma {:induction false} RunsKeepInv(c: Config, s: State, acts: seq<Action>)
    requires Inv(c, s) && Runs(c, s, acts)
    ensures Inv(c, After(c, s, acts))
    decreases |acts|
  {
    hide Inv, Enabled, Apply;
    if acts != [] {
      KeepsInv(c, s, acts[0]);
      RunsKeepInv(c, Apply(c, s, acts[0]), acts[1..]);
    }
  }

  /** However any number of calls interleave, a call that returns gives what judging alone
      in the box it was handed, as it was then, gives; one left by an exception would have
      been left by it alone; and every box is in exactly one place. */
  lemma InterleavingIsInvisible(c: Config, s: State, acts: seq<Action>)
    requires Initial(c, s) && Runs(c, s, acts)
    ensures var s' := After(c, s, acts);
      && Conserved(c, s')
      && forall t :: 0 <= t < |s'.threads| ==>
           var th := s'.threads[t];
           && (th.Judged? ==> th.b in c.ids && JudgeOn(c.m, th.b, th.entry, c.tasks[t]).0 == Returned(th.result))
           && (th.Failed? ==> th.b in c.ids && JudgeOn(c.m, th.b, th.entry, c.tasks[t]).0 == Threw)
  {
    hide JudgeOn, Runs, After, Initial;
    StartsWell(c, s);
    RunsKeepInv(c, s, acts);
    var s' := After(c, s, acts);
    forall t | 0 <= t < |s'.threads|
      ensures var th := s'.threads[t];
        && (th.Judged? ==> th.b in c.ids && JudgeOn(c.m, th.b, th.entry, c.tasks[t]).0 == Returned(th.result))
        && (th.Failed? ==> th.b in c.ids && JudgeOn(c.m, th.b, th.entry, c.tasks[t]).0 == Threw)
    {
      assert OnCourse(c, s', t);
    }
  }

  /** No wake-up is lost: in every run, with spurious wake-ups and barging, as long as some
      thread waits there are at least as many woken threads as available boxes. */
  lemma WakeUpsAreNotLost(c: Config, s: State, acts: seq<Action>)
    requires Initial(c, s) && Runs(c, s, acts)
    ensures NoLostWakeUp(After(c, s, acts))
  {
    hide JudgeOn, Runs, After, Initial;
    StartsWell(c, s);
    RunsKeepInv(c, s, acts);
  }

  // ---------- progress ----------

  /** Only spurious wake-ups are possible. */
  ghost predicate Stuck(c: Config, s: State) {
    forall a :: Enabled(c, s, a) ==> a.SpuriousWake?
  }

  predicate AtRest(th: Thread) {
    th.Blocked? || th.Judged? || th.Failed?
  }

  lemma ThreadCanMove(c: Config, s: State, t: nat) returns (a: Action)
    requires Inv(c, s) && t < |s.threads| && !AtRest(s.threads[t])
    ensures Enabled(c, s, a) && !a.SpuriousWake?
  {
    hide JudgeOn, TaskRest, NoLostWakeUp;
    assert OnCourse(c, s, t);
    match s.threads[t]
    case Outside => a := Acquire(t);
    case Woken => a := Resume(t);
    case Working(_, _, pc) =>
      if !pc.Finished? {
        a := Operate(t);
      } else if pc.outcome.Threw? {
        a := Unwind(t);
      } else if SomeBlocked(s) {
        var u: nat :| IsBlocked(s, u);
        a := Release(t, Some(u));
      } else {
        a := Release(t, None);
      }
  }

  lemma {:induction false} SumOfZeros(ns: seq<nat>)
    requires forall i :: 0 <= i < |ns| ==> ns[i] == 0
    ensures Sum(ns) == 0
  {
    if ns != [] {
      SumOfZeros(ns[1..]);
    }
  }

  /** Nothing can move exactly when every thread has returned, failed or waits, and then no
      thread waits unless exceptions have kept every box of the pool. */
  lemma StuckIffAtRest(c: Config, s: State)
    requires Inv(c, s)
    ensures Stuck(c, s) <==> forall t :: 0 <= t < |s.threads| ==> AtRest(s.threads[t])
    ensures Stuck(c, s) && SomeBlocked(s) ==>
              && s.available == []
              && forall b :: b in c.ids ==>
                   exists t :: 0 <= t < |s.threads| && s.threads[t].Failed? && s.threads[t].b == b
  {
    hide OnCourse, PcOk;
    if Stuck(c, s) {
      forall t | 0 <= t < |s.threads| ensures AtRest(s.threads[t]) {
        if !AtRest(s.threads[t]) {
          var a := ThreadCanMove(c, s, t);
          assert false;
        }
      }
      if SomeBlocked(s) {
        SumOfZeros(WokenFlags(s.threads));
        forall b | b in c.ids ensures exists t :: 0 <= t < |s.threads| && s.threads[t].Failed? && s.threads[t].b == b {
          var t :| 0 <= t < |s.threads| && Holds(s.threads[t], b);
          assert AtRest(s.threads[t]);
        }
      }
    }
  }

  // ---------- runs end ----------

  function Fuel(n: nat, pc: Pc): nat {
    match pc
    case CompilePrepare => 3 * n + 4
    case CompileInvoke => 3 * n + 3
    case CompileRead(_) => 3 * n + 2
    case RunPrepare(i, _) => if i < n then 3 * (n - i) + 1 else 1
    case RunInvoke(i, _) => if i < n then 3 * (n - i) else 1
    case RunRead(i, _, _) => if i < n then 3 * (n - i) - 1 else 1
    case Finished(_) => 0
  }

  function Weight(n: nat, th: Thread): nat {
    match th
    case Outside => 3 * n + 9
    case Woken => 3 * n + 8
    case Blocked => 3 * n + 7
    case Working(_, _, pc) => 2 + Fuel(n, pc)
    case _ => 0
  }

  function Weights(c: Config, s: State): seq<nat>
    requires |s.threads| == |c.tasks|
  {
    seq(|s.threads|, i requires 0 <= i < |s.threads| => Weight(|c.tasks[i].testcases|, s.threads[i]))
  }

  /** A bound on the work left. */
  function Potential(c: Config, s: State): nat
    requires |s.threads| == |c.tasks|
  {
    Sum(Weights(c, s))
  }

  lemma WeightUpdate(c: Config, s: State, s': State, t: nat)
    requires |s.threads| == |s'.threads| == |c.tasks| && t < |s.threads|
    requires s'.threads == s.threads[t := s'.threads[t]]
    ensures var n := |c.tasks[t].testcases|;
      Potential(c, s') == Potential(c, s) - Weight(n, s.threads[t]) + Weight(n, s'.threads[t])
  {
    hide Weight;
    SumUpdate(Weights(c, s), t, Weight(|c.tasks[t].testcases|, s'.threads[t]));
    assert Weights(c, s') == Weights(c, s)[t := Weight(|c.tasks[t].testcases|, s'.threads[t])];
  }

  lemma OperationBurnsFuel(ops: BoxOps, tests: seq<TestCase>, limit: int, pc: Pc, box: Box)
    requires PcOk(tests, pc) && !pc.Finished?
    ensures Fuel(|tests|, NextPc(ops, tests, limit, pc, box).0) < Fuel(|tests|, pc)
  {
    hide AfterRun, AfterCompile, MoreCases;
  }

  lemma TaskBurnsFuel(c: Config, t: nat, b: int, pc: Pc, box: Box)
    requires t < |c.tasks| && PcOk(c.tasks[t].testcases, pc) && !pc.Finished?
    ensures Fuel(|c.tasks[t].testcases|, TaskNext(c, t, b, pc, box).0) < Fuel(|c.tasks[t].testcases|, pc)
  {
    hide OpsOf, NextPc, Fuel;
    OperationBurnsFuel(OpsOf(c.m, b, JobOf(c.tasks[t])), c.tasks[t].testcases, c.tasks[t].memoryLimitKb, pc, box);
  }

  /** Every action but a spurious wake-up uses up potential; a spurious one adds 1. */
  lemma ActionBurnsPotential(c: Config, s: State, a: Action)
    requires Enabled(c, s, a) && BoxesExist(s)
    ensures var s' := Apply(c, s, a);
      && |s'.threads| == |c.tasks|
      && if a.SpuriousWake? then Potential(c, s') == Potential(c, s) + 1 else Potential(c, s') < Potential(c, s)
  {
    hide TaskNext, Fuel, Potential, SomeBlocked;
    var s' := Apply(c, s, a);
    match a
    case Release(t, waiter) =>
      var s1 := s.(threads := s.threads[t := s'.threads[t]]);
      WeightUpdate(c, s, s1, t);
      if waiter.Some? {
        WeightUpdate(c, s1, s', waiter.value);
      } else {
        WeightUpdate(c, s, s', t);
      }
    case Operate(t) =>
      var th := s.threads[t];
      TaskBurnsFuel(c, t, th.b, th.pc, s.boxes[th.b]);
      WeightUpdate(c, s, s', t);
    case _ =>
      StartFuel(|c.tasks[a.t].testcases|);
      WeightUpdate(c, s, s', a.t);
  }

  lemma StartFuel(n: nat)
    ensures Fuel(n, CompilePrepare) == 3 * n + 4
  {
  }

  function Spurious(acts: seq<Action>): nat {
    if acts == [] then 0 else (if acts[0].SpuriousWake? then 1 else 0) + Spurious(acts[1..])
  }

  /** Every run is finite but for spurious wake-ups: the other actions are at most the
      potential at the start plus the number of spurious ones. */
  lemma {:induction false} RunsAreBounded(c: Config, s: State, acts: seq<Action>)
    requires |s.threads| == |c.tasks| && Runs(c, s, acts)
    ensures |acts| - Spurious(acts) <= Potential(c, s) + Spurious(acts)
    decreases |acts|
  {
    hide Enabled, Apply, Potential;
    if acts != [] {
      ActionBurnsPotential(c, s, acts[0]);
      RunsAreBounded(c, Apply(c, s, acts[0]), acts[1..]);
    }
  }

  /** A run that can go on only by spurious wake-ups, and in which no call was left by an
      exception, has served every thread if and only if the pool has a box at all. */
  lemma EveryoneIsServedIffABoxExists(c: Config, s: State, acts: seq<Action>)
    requires Initial(c, s) && Runs(c, s, acts) && c.tasks != []
    requires Stuck(c, After(c, s, acts))
    requires forall t :: 0 <= t < |After(c, s, acts).threads| ==> !After(c, s, acts).threads[t].Failed?
    ensures (forall t :: 0 <= t < |After(c, s, acts).threads| ==> After(c, s, acts).threads[t].Judged?) <==> c.ids != []
  {
    hide Initial, Runs, After, OnCourse, Stuck;
    StartsWell(c, s);
    RunsKeepInv(c, s, acts);
    var s' := After(c, s, acts);
    StuckIffAtRest(c, s');
    if c.ids != [] {
      NobodyWaits(c, s', c.ids[0]);
      forall t | 0 <= t < |s'.threads| ensures s'.threads[t].Judged? {
        assert AtRest(s'.threads[t]);
        assert !IsBlocked(s', t);
      }
    } else {
      assert forall t :: 0 <= t < |s'.threads| && s'.threads[t].Judged? ==> s'.threads[t].b in c.ids;
      assert !s'.threads[0].Judged?;
    }
  }

  lemma NobodyWaits(c: Config, s: State, b: int)
    requires b in c.ids
    requires forall t :: 0 <= t < |s.threads| ==> !s.threads[t].Failed?
    requires SomeBlocked(s) ==>
      forall b :: b in c.ids ==> exists t :: 0 <= t < |s.threads| && s.threads[t].Failed? && s.threads[t].b == b
    ensures !SomeBlocked(s)
  {
  }

  // ---------- a call that is not interrupted ----------

  lemma {:induction false} RunsJoin(c: Config, s: State, first: seq<Action>, second: seq<Action>)
    requires Runs(c, s, first) && Runs(c, After(c, s, first), second)
    ensures Runs(c, s, first + second) && After(c, s, first + second) == After(c, After(c, s, first), second)
    decreases |first|
  {
    hide Enabled, Apply, BoxesExist;
    if first == [] {
      assert first + second == second;
    } else {
      RunsJoin(c, Apply(c, s, first[0]), first[1..], second);
      assert (first + second)[1..] == first[1..] + second;
    }
  }

  lemma OneStep(c: Config, s: State, a: Action)
    requires Enabled(c, s, a) && BoxesExist(s)
    ensures Runs(c, s, [a]) && After(c, s, [a]) == Apply(c, s, a)
  {
    hide Enabled, Apply, BoxesExist;
    assert [a][1..] == [];
    assert Runs(c, Apply(c, s, a), []);
  }

  /** A thread at work, undisturbed, comes to the end of its operations. */
  lemma {:induction false} WorksToTheEnd(c: Config, s: State, t: nat) returns (acts: seq<Action>)
    requires Inv(c, s) && t < |s.threads| && s.threads[t].Working?
    requires PcOk(c.tasks[t].testcases, s.threads[t].pc) && s.threads[t].b in s.boxes
    ensures Runs(c, s, acts)
    ensures var th := s.threads[t];
      var (outcome, box) := TaskRest(c, t, th.b, th.pc, s.boxes[th.b]);
      After(c, s, acts) == s.(threads := s.threads[t := th.(pc := Finished(outcome))], boxes := s.boxes[th.b := box])
    decreases Fuel(|c.tasks[t].testcases|, s.threads[t].pc)
  {
    hide TaskNext, TaskRest, Inv, Fuel, NextPc, Rest, JudgeOn;
    BoxesOfInv(c, s);
    var th := s.threads[t];
    if th.pc.Finished? {
      TaskEnds(c, t, th.b, s.boxes[th.b]);
      acts := [];
      assert s.threads[t := th] == s.threads && s.boxes[th.b := s.boxes[th.b]] == s.boxes;
    } else {
      var a := Operate(t);
      OneStep(c, s, a);
      KeepsInv(c, s, a);
      TaskOperation(c, t, th.b, th.pc, s.boxes[th.b]);
      TaskBurnsFuel(c, t, th.b, th.pc, s.boxes[th.b]);
      var s1 := Apply(c, s, a);
      var rest := WorksToTheEnd(c, s1, t);
      RunsJoin(c, s, [a], rest);
      acts := [a] + rest;
      hide Runs, After;
      var (outcome, box) := TaskRest(c, t, th.b, th.pc, s.boxes[th.b]);
      assert s1.threads[t := th.(pc := Finished(outcome))] == s.threads[t := th.(pc := Finished(outcome))];
      assert s1.boxes[th.b := box] == s.boxes[th.b := box];
    }
  }

  lemma BoxesOfInv(c: Config, s: State)
    requires Inv(c, s)
    ensures BoxesExist(s) && |s.threads| == |c.tasks|
  {
  }

  /** A call that nobody interrupts does to queue, boxes and result what the sequential
      `judge` does. */
  lemma UninterruptedCallIsSequential(c: Config, s: State, t: nat) returns (acts: seq<Action>)
    requires Inv(c, s) && t < |s.threads| && s.threads[t].Outside? && s.available != []
    ensures s.available[0] in s.boxes
    ensures Runs(c, s, acts)
    ensures var s', b := After(c, s, acts), s.available[0];
      var (outcome, box) := JudgeOn(c.m, b, s.boxes[b], c.tasks[t]);
      && s'.boxes == s.boxes[b := box]
      && s'.available == s.available[1..] + (if outcome.Returned? then [b] else [])
      && |s'.threads| == |s.threads|
      && s'.threads[t] == match outcome
                          case Returned(r) => Judged(b, s.boxes[b], r)
                          case Threw => Failed(b, s.boxes[b])
  {
    hide TaskRest, Fuel, JudgeOn, Inv, Runs, After, Apply, Enabled;
    var b := s.available[0];
    FrontIsTaken(c, s, t);
    OneStep(c, s, Acquire(t));
    KeepsInv(c, s, Acquire(t));
    var s1 := Apply(c, s, Acquire(t));
    var middle := WorksToTheEnd(c, s1, t);
    RunsJoin(c, s, [Acquire(t)], middle);
    acts := [Acquire(t)] + middle;
    TaskEnds(c, t, b, s.boxes[b]);
    RunsKeepInv(c, s, acts);
    var s2 := After(c, s, acts);
    BoxesOfInv(c, s2);
    var a := LeavesTheCall(c, s2, t);
    OneStep(c, s2, a);
    RunsJoin(c, s, acts, [a]);
    acts := acts + [a];
  }

  lemma FrontIsTaken(c: Config, s: State, t: nat)
    requires Inv(c, s) && t < |s.threads| && s.threads[t].Outside? && s.available != []
    ensures BoxesExist(s) && |s.threads| == |c.tasks| && s.available[0] in s.boxes
    ensures Enabled(c, s, Acquire(t))
    ensures var b := s.available[0];
      Apply(c, s, Acquire(t)) ==
      s.(available := s.available[1..], threads := s.threads[t := Working(b, s.boxes[b], CompilePrepare)])
    ensures PcOk(c.tasks[t].testcases, CompilePrepare)
  {
    hide OnCourse, NoLostWakeUp;
  }

  /** The last action of a call: it gives the box back, or an exception keeps it. */
  lemma LeavesTheCall(c: Config, s: State, t: nat) returns (a: Action)
    requires |s.threads| == |c.tasks| && BoxesExist(s)
    requires t < |s.threads| && s.threads[t].Working? && s.threads[t].pc.Finished?
    ensures Enabled(c, s, a)
    ensures var s', th := Apply(c, s, a), s.threads[t];
      && s'.boxes == s.boxes && |s'.threads| == |s.threads|
      && s'.available == s.available + (if th.pc.outcome.Returned? then [th.b] else [])
      && s'.threads[t] == match th.pc.outcome
                          case Returned(r) => Judged(th.b, th.entry, r)
                          case Threw => Failed(th.b, th.entry)
  {
    hide TaskNext, PcOk;
    if s.threads[t].pc.outcome.Threw? {
      a := Unwind(t);
    } else if SomeBlocked(s) {
      var u: nat :| IsBlocked(s, u);
      a := Release(t, Some(u));
    } else {
      a := Release(t, None);
    }
  }
}
