/** What a thread finds in its box, and in which order boxes pass from call to call: over
    every run, on every machine. */
module Isolation {
  import opened Base
  import opened Meta
  import opened Switches
  import opened Commands
  import opened Boxes
  import opened Messages
  import opened Judging
  import opened Concurrency
  import Engine

  // ---------- what a call finds ----------

  /** What the compilation of a call left as the file that its runs execute. */
  function OwnTarget(m: Machine, id: int, job: Job, entry: Box): Option<string> {
    Lookup(CompileOn(m, id, entry, job.language, job.code).1.files, Target(job))
  }

  /** The program `own` does not change itself; other programs may do what they like. */
  ghost predicate RunsKeepTarget(m: Machine, job: Job, own: Option<string>) {
    forall id: int, box: Box :: Lookup(box.files, Target(job)) == own ==>
      var after := m.isolate(box, RunCommand(m, id, job));
      after.Some? ==> Lookup(after.value, Target(job)) == own
  }

  /** If it does not change itself, the program in `box` is what the compilation of this call
      left. */
  ghost predicate HasOwnTarget(m: Machine, id: int, job: Job, entry: Box, box: Box) {
    RunsKeepTarget(m, job, OwnTarget(m, id, job, entry)) ==>
      Lookup(box.files, Target(job)) == OwnTarget(m, id, job, entry)
  }

  /** `box` is what isolate made of a box with this input and the program of this call. */
  ghost predicate LeftByOwnRun(m: Machine, id: int, job: Job, entry: Box, input: string, ran: bool, box: Box) {
    exists before: Box :: IsOwnRun(m, id, job, entry, input, before, ran, box)
  }

  ghost predicate IsOwnRun(
    m: Machine, id: int, job: Job, entry: Box, input: string, before: Box, ran: bool, box: Box)
  {
    && Lookup(before.files, INPUT) == Some(input)
    && HasOwnTarget(m, id, job, entry, before)
    && (ran, box) == InvokeProgram(m, id, before, Request(job, input))
  }

  /** What a call that was handed `entry` finds in its box where it stands. */
  ghost predicate Finds(m: Machine, id: int, sub: Submission, entry: Box, pc: Pc, box: Box)
    requires PcOk(sub.testcases, pc)
  {
    var job := JobOf(sub);
    var (failure, prepared) := PrepareCompile(m, id, entry, job.language, job.code);
    match pc
    case CompilePrepare => box == entry
    case CompileInvoke =>
      && failure.None? && box == prepared && LanguageOf(job.language) != Unsupported
      && Lookup(box.files, SourceName(job)) == Some(job.code)
    case CompileRead(ran) =>
      failure.None? && (ran, box) == InvokeCompiler(m, id, prepared, job.language, job.code)
    case RunPrepare(_, _) => HasOwnTarget(m, id, job, entry, box)
    case RunInvoke(i, _) =>
      && HasOwnTarget(m, id, job, entry, box) && LanguageOf(job.language) != Unsupported
      && Lookup(box.files, INPUT) == Some(sub.testcases[i].input)
    case RunRead(i, _, ran) =>
      && HasOwnTarget(m, id, job, entry, box)
      && LeftByOwnRun(m, id, job, entry, sub.testcases[i].input, ran, box)
    case Finished(_) => true
  }

  lemma PreparedHasSource(m: Machine, id: int, box: Box, job: Job)
    requires PrepareCompile(m, id, box, job.language, job.code).0.None?
    ensures LanguageOf(job.language) != Unsupported
    ensures Lookup(PrepareCompile(m, id, box, job.language, job.code).1.files, SourceName(job)) == Some(job.code)
  {
    hide LanguageOf, ClassOf, SourceFile, BoxPath, SandboxFailure;
    assert SourceName(job) == SourceFile(LanguageOf(job.language), ClassOf(LanguageOf(job.language), job.code));
  }

  lemma CompiledBox(m: Machine, id: int, box: Box, job: Job)
    ensures var (failure, box1) := PrepareCompile(m, id, box, job.language, job.code);
      CompileOn(m, id, box, job.language, job.code).1 ==
      if failure.Some? then box1 else InvokeCompiler(m, id, box1, job.language, job.code).1
  {
    hide PrepareCompile, InvokeCompiler, ReadCompile;
    var (failure, box1) := PrepareCompile(m, id, box, job.language, job.code);
    if failure.None? {
      var (ran, box2) := InvokeCompiler(m, id, box1, job.language, job.code);
    }
  }

  /** The input file is there when it could be written, and it is not the program. */
  lemma PreparedHasInput(m: Machine, id: int, box: Box, job: Job, input: string)
    ensures var (failure, box') := PrepareRun(m, id, box, Request(job, input));
      && (failure.None? ==> Lookup(box'.files, INPUT) == Some(input) && LanguageOf(job.language) != Unsupported)
      && Lookup(box'.files, Target(job)) == Lookup(box.files, Target(job))
  {
    TargetApart(job);
    assert INPUT in OWN_FILES;
    hide LanguageOf, Target, BoxPath, SandboxFailure;
  }

  lemma InvokingKeepsTarget(m: Machine, id: int, box: Box, job: Job, own: Option<string>, input: string)
    requires RunsKeepTarget(m, job, own) && Lookup(box.files, Target(job)) == own
    ensures Lookup(InvokeProgram(m, id, box, Request(job, input)).1.files, Target(job)) == own
  {
    hide LanguageOf, ClassOf, CommandLine, RunArgs, MetaOption, Target;
    var after := m.isolate(box, RunCommand(m, id, job));
    assert after.Some? ==> Lookup(after.value, Target(job)) == own;
  }

  /** One operation of the call itself. */
  lemma OperationFinds(m: Machine, id: int, sub: Submission, entry: Box, pc: Pc, box: Box)
    requires PcOk(sub.testcases, pc) && Finds(m, id, sub, entry, pc, box)
    ensures var (pc', box') := NextPc(OpsOf(m, id, JobOf(sub)), sub.testcases, sub.memoryLimitKb, pc, box);
      PcOk(sub.testcases, pc') && Finds(m, id, sub, entry, pc', box')
  {
    hide PrepareCompile, InvokeCompiler, ReadCompile, PrepareRun, InvokeProgram, ReadRun, CompileOn, Request, Target,
      SourceName, Lookup, RunsKeepTarget, AfterCompile, AfterRun, MoreCases;
    var job, tests := JobOf(sub), sub.testcases;
    match pc
    case CompilePrepare =>
      CompiledBox(m, id, entry, job);
      if PrepareCompile(m, id, entry, job.language, job.code).0.None? {
        PreparedHasSource(m, id, entry, job);
      }
    case CompileRead(ran) => CompiledBox(m, id, entry, job);
    case RunPrepare(i, cases) => PreparedHasInput(m, id, box, job, tests[i].input);
    case RunInvoke(i, cases) =>
      var (ran, box') := InvokeProgram(m, id, box, Request(job, tests[i].input));
      if RunsKeepTarget(m, job, OwnTarget(m, id, job, entry)) {
        InvokingKeepsTarget(m, id, box, job, OwnTarget(m, id, job, entry), tests[i].input);
      }
      assert IsOwnRun(m, id, job, entry, tests[i].input, box, ran, box');
    case _ =>
  }

  ghost predicate FindsOwn(c: Config, s: State, t: nat)
    requires t < |s.threads| == |c.tasks|
  {
    var th := s.threads[t];
    th.Working? ==>
      && th.b in s.boxes && PcOk(c.tasks[t].testcases, th.pc)
      && Finds(c.m, th.b, c.tasks[t], th.entry, th.pc, s.boxes[th.b])
  }

  lemma KeepsFindsOwn(c: Config, s: State, a: Action, t: nat)
    requires Conserved(c, s) && Enabled(c, s, a) && t < |s.threads| && FindsOwn(c, s, t)
    ensures Conserved(c, Apply(c, s, a)) && FindsOwn(c, Apply(c, s, a), t)
  {
    hide Finds, OpsOf, NextPc, SomeBlocked, PcOk;
    KeepsConserved(c, s, a);
    var th, s' := s.threads[t], Apply(c, s, a);
    if th.Working? {
      if a.t != t {
        OthersLeaveBoxAlone(c, s, a, t);
        assert s'.threads[t].b in s'.boxes;
      } else if a.Operate? {
        OperationFinds(c.m, th.b, c.tasks[t], th.entry, th.pc, s.boxes[th.b]);
      }
    } else if s'.threads[t].Working? {
      AcquiredFinds(c, s'.threads[t].b, t, s.boxes[s'.threads[t].b]);
    }
  }

  lemma AcquiredFinds(c: Config, b: int, t: nat, box: Box)
    requires t < |c.tasks|
    ensures PcOk(c.tasks[t].testcases, CompilePrepare) && Finds(c.m, b, c.tasks[t], box, CompilePrepare, box)
  {
  }

  lemma {:induction false} RunsKeepFindsOwn(c: Config, s: State, acts: seq<Action>)
    requires Conserved(c, s) && Runs(c, s, acts)
    requires forall t :: 0 <= t < |s.threads| ==> FindsOwn(c, s, t)
    ensures |After(c, s, acts).threads| == |c.tasks|
    ensures forall t :: 0 <= t < |c.tasks| ==> FindsOwn(c, After(c, s, acts), t)
    decreases |acts|
  {
    hide Enabled, Apply, FindsOwn;
    assert |s.threads| == |c.tasks|;
    if acts != [] {
      assert Conserved(c, Apply(c, s, acts[0])) by { KeepsConserved(c, s, acts[0]); }
      hide Conserved;
      forall t | 0 <= t < |Apply(c, s, acts[0]).threads| ensures FindsOwn(c, Apply(c, s, acts[0]), t) {
        SameThreads(c, s, acts[0]);
        KeepsFindsOwn(c, s, acts[0], t);
      }
      RunsKeepFindsOwn(c, Apply(c, s, acts[0]), acts[1..]);
    }
  }

  lemma SameThreads(c: Config, s: State, a: Action)
    requires Enabled(c, s, a) && BoxesExist(s)
    ensures |Apply(c, s, a).threads| == |s.threads| == |c.tasks|
  {
    hide TaskNext, SomeBlocked;
  }

  /** In every run, on every machine: when a thread calls the compiler its box holds the source
      of its own submission; when it calls the program its box holds the input of its own
      test, and what it reads afterwards is what that call left; and unless its own program
      changes itself, the program called is what its own compilation left. */
  lemma EveryCallFindsItsOwnFiles(c: Config, s: State, acts: seq<Action>)
    requires Initial(c, s) && Runs(c, s, acts)
    ensures |After(c, s, acts).threads| == |c.tasks|
    ensures forall t :: 0 <= t < |c.tasks| ==> FindsOwn(c, After(c, s, acts), t)
  {
    hide Runs, After, Finds;
    StartsWell(c, s);
    RunsKeepFindsOwn(c, s, acts);
  }

  // ---------- which box a command is for ----------

  predicate Invokes(th: Thread) {
    th.Working? && (th.pc.CompileInvoke? || th.pc.RunInvoke?)
  }

  /** The command that a thread is about to give to isolate. */
  function CommandOf(c: Config, th: Thread, t: nat): seq<string>
    requires t < |c.tasks| && Invokes(th)
  {
    if th.pc.CompileInvoke? then CompileCommand(c.m, th.b, JobOf(c.tasks[t]))
    else RunCommand(c.m, th.b, JobOf(c.tasks[t]))
  }

  /** Isolate works in the box that the command names, and that is the one the thread holds. */
  lemma InvocationHitsOwnBox(c: Config, s: State, t: nat)
    requires |s.threads| == |c.tasks| && t < |s.threads| && Invokes(s.threads[t]) && FindsOwn(c, s, t)
    requires BoxesExist(s)
    ensures Enabled(c, s, Operate(t))
    ensures var cmd := CommandOf(c, s.threads[t], t);
      && BoxNamed(cmd) == Some(s.threads[t].b)
      && Apply(c, s, Operate(t)).boxes == IsolateAll(c.m, s.boxes, cmd).1
  {
    hide LanguageOf, InvokeCompiler, InvokeProgram, IsolateAll, BoxNamed, CompileCommand, RunCommand, FindsOwn, JobOf,
      Request;
    IsSupported(c, s, t);
    var th, job := s.threads[t], JobOf(c.tasks[t]);
    if th.pc.CompileInvoke? {
      CompilingHitsOwnBox(c.m, s.boxes, th.b, job);
    } else {
      RunningHitsOwnBox(c.m, s.boxes, th.b, job, c.tasks[t].testcases[th.pc.i].input);
    }
  }

  lemma IsSupported(c: Config, s: State, t: nat)
    requires |s.threads| == |c.tasks| && t < |s.threads| && Invokes(s.threads[t]) && FindsOwn(c, s, t)
    ensures var th := s.threads[t];
      && th.b in s.boxes && PcOk(c.tasks[t].testcases, th.pc)
      && LanguageOf(JobOf(c.tasks[t]).language) != Unsupported
  {
    hide LanguageOf, HasOwnTarget, PrepareCompile, SourceName, Lookup;
  }

  /** What the operations of a call on `sub` hand to isolate: the source is the code of the
      submission, the input is the one asked for, the limits are those of the submission, each
      in its place, and the program is the one of the submission. */
  lemma CallServesSubmission(m: Machine, id: int, sub: Submission, box: Box, input: string)
    requires LanguageOf(sub.language) != Unsupported
    ensures var ops, cmd := OpsOf(m, id, JobOf(sub)), RunCommand(m, id, JobOf(sub));
      && ops.invokeCompiler(box) == IsolateIn(m, box, CompileCommand(m, id, JobOf(sub)))
      && ops.invokeProgram(box, input) == IsolateIn(m, box, cmd)
      && (ops.prepareCompile(box).0.None? ==>
            ops.prepareCompile(box).1.files == box.files[SourceName(JobOf(sub)) := sub.code])
      && (ops.prepareRun(box, input).0.None? ==> ops.prepareRun(box, input).1.files == box.files[INPUT := input])
      && cmd != []
      && TellsNumber(cmd[1..], "mem",
                     if LanguageOf(sub.language) == Java && sub.memoryLimitKb < 2097152 then 2097152
                     else sub.memoryLimitKb)
      && TellsMicros(cmd[1..], "wall-time", 1000 * if 2 * sub.timeLimitMs < 5000 then 5000 else 2 * sub.timeLimitMs)
      && Executes(ProgramOf(cmd), LanguageOf(sub.language), Target(JobOf(sub)))
  {
    var job := JobOf(sub);
    assert job.language == sub.language && job.code == sub.code;
    assert job.timeLimitMs == sub.timeLimitMs && job.memoryLimitKb == sub.memoryLimitKb;
    RunCommandSays(m, id, job);
    CompilerIsInvoked(m, box, id, job);
    ProgramIsInvoked(m, box, id, job, input);
    PreparingFailsIff(m, id, box, job);
    FeedingFailsIff(m, id, box, job, input);
    hide JobOf, LanguageOf, PrepareCompile, InvokeCompiler, ReadCompile, PrepareRun, InvokeProgram, ReadRun, IsolateIn,
      CompileCommand, RunCommand, Request, SourceName, Target, Tells, TellsNumber, TellsMicros, Executes, ProgramOf,
      IsFailure, ToString;
  }

  /** In every run: each call of isolate works in the box that its thread holds, read from the
      command itself, and the commands of two threads never name the same box. */
  lemma CommandsNeverMeet(c: Config, s: State, acts: seq<Action>, t: nat, u: nat)
    requires Initial(c, s) && Runs(c, s, acts) && t < |c.tasks| && u < |c.tasks| && t != u
    requires |After(c, s, acts).threads| == |c.tasks| && Invokes(After(c, s, acts).threads[t])
    ensures var s' := After(c, s, acts);
      && BoxesExist(s') && Enabled(c, s', Operate(t))
      && BoxNamed(CommandOf(c, s'.threads[t], t)) == Some(s'.threads[t].b)
      && Apply(c, s', Operate(t)).boxes == IsolateAll(c.m, s'.boxes, CommandOf(c, s'.threads[t], t)).1
      && (Invokes(s'.threads[u]) ==>
            BoxNamed(CommandOf(c, s'.threads[u], u)) != BoxNamed(CommandOf(c, s'.threads[t], t)))
  {
    hide Runs, After, FindsOwn, Inv, Initial, BoxNamed, CommandOf, IsolateAll, Enabled, Apply;
    EveryCallFindsItsOwnFiles(c, s, acts);
    StartsWell(c, s);
    RunsKeepInv(c, s, acts);
    var s' := After(c, s, acts);
    BoxesOfInv(c, s');
    InvocationHitsOwnBox(c, s', t);
    if Invokes(s'.threads[u]) {
      InvocationHitsOwnBox(c, s', u);
      HoldersApart(c, s', t, u);
    }
  }

  lemma HoldersApart(c: Config, s: State, t: nat, u: nat)
    requires Inv(c, s) && t < |s.threads| && u < |s.threads| && t != u
    requires s.threads[t].Working? && s.threads[u].Working?
    ensures s.threads[t].b != s.threads[u].b
  {
    hide OnCourse, NoLostWakeUp;
  }

  // ---------- in which order boxes are used ----------

  predicate HasTaken(th: Thread, b: int) {
    (th.Working? || th.Judged? || th.Failed?) && th.b == b
  }

  /** What the call of thread `t`, alone, makes of the box. */
  function BoxLeftBy(c: Config, s: State, b: int, t: nat): Box
    requires t < |s.threads| == |c.tasks| && HasTaken(s.threads[t], b)
  {
    JudgeOn(c.m, b, s.threads[t].entry, c.tasks[t]).1
  }

  /** The threads that took box `b` in a run, in order. */
  ghost function Users(c: Config, s: State, acts: seq<Action>, b: int): seq<nat>
    requires Runs(c, s, acts)
    decreases |acts|
  {
    if acts == [] then [] else Taker(s, acts[0], b) + Users(c, Apply(c, s, acts[0]), acts[1..], b)
  }

  function Taker(s: State, a: Action, b: int): seq<nat> {
    if (a.Acquire? || a.Resume?) && s.available != [] && s.available[0] == b then [a.t] else []
  }

  /** The calls in box `b` came one after the other: the first was handed the box as it was
      at the start, each other what the call before it, alone, makes of the box; only the
      last may not have given it back. */
  ghost predicate Serial(c: Config, start: Box, b: int, users: seq<nat>, s: State) {
    && |s.threads| == |c.tasks| && b in s.boxes
    && NoDuplicates(users)
    && (forall k :: 0 <= k < |users| ==> users[k] < |s.threads| && HasTaken(s.threads[users[k]], b))
    && (forall t :: 0 <= t < |s.threads| && HasTaken(s.threads[t], b) ==> t in users)
    && (forall k :: 0 <= k < |users| ==>
          s.threads[users[k]].entry == if k == 0 then start else BoxLeftBy(c, s, b, users[k - 1]))
    && (forall k :: 0 <= k < |users| - 1 ==> s.threads[users[k]].Judged?)
    && (users == [] ==> s.boxes[b] == start)
    && (users != [] && !s.threads[users[|users| - 1]].Working? ==>
          s.boxes[b] == BoxLeftBy(c, s, b, users[|users| - 1]))
  }

  /** Thread `t` stands to box `b` as it did before. */
  ghost predicate Carries(s: State, s': State, b: int, t: nat)
    requires t < |s.threads| == |s'.threads|
  {
    && (HasTaken(s'.threads[t], b) <==> HasTaken(s.threads[t], b))
    && (HasTaken(s.threads[t], b) && HasTaken(s'.threads[t], b) ==>
          s'.threads[t].entry == s.threads[t].entry && (s.threads[t].Judged? ==> s'.threads[t].Judged?))
  }

  /** A change in which no thread takes the box, and none but its last user touches it. */
  lemma SerialStays(c: Config, start: Box, b: int, users: seq<nat>, s: State, s': State)
    requires Serial(c, start, b, users, s)
    requires |s'.threads| == |s.threads| && b in s'.boxes
    requires forall t :: 0 <= t < |s.threads| ==> Carries(s, s', b, t)
    requires users == [] ==> s'.boxes[b] == s.boxes[b]
    requires users != [] && !s'.threads[users[|users| - 1]].Working? ==>
               s'.boxes[b] == BoxLeftBy(c, s, b, users[|users| - 1])
    ensures Serial(c, start, b, users, s')
  {
    hide JudgeOn;
    forall t | 0 <= t < |s.threads|
      ensures HasTaken(s'.threads[t], b) <==> HasTaken(s.threads[t], b)
      ensures HasTaken(s.threads[t], b) ==>
                s'.threads[t].entry == s.threads[t].entry && (s.threads[t].Judged? ==> s'.threads[t].Judged?)
    {
      assert Carries(s, s', b, t);
    }
  }

  /** A thread takes the box, which nobody holds. */
  lemma SerialGrows(c: Config, start: Box, b: int, users: seq<nat>, s: State, t: nat)
    requires Serial(c, start, b, users, s) && Conserved(c, s) && t < |s.threads|
    requires s.threads[t].Outside? || s.threads[t].Woken?
    requires s.available != [] && s.available[0] == b
    ensures Serial(c, start, b, users + [t], TakeOrWait(s, t))
  {
    hide JudgeOn;
    var s', users' := TakeOrWait(s, t), users + [t];
    if users != [] {
      var last := users[|users| - 1];
      assert !Holds(s.threads[last], s.available[0]);
      assert s.threads[last].Judged?;
    }
    assert t !in users;
    forall u | 0 <= u < |s'.threads| && HasTaken(s'.threads[u], b) ensures u in users' {
      if u == t {
        assert users'[|users|] == t;
      } else {
        assert u in users;
      }
    }
  }

  /** Whoever works in the box is its last user. */
  lemma WorkerIsLast(c: Config, start: Box, b: int, users: seq<nat>, s: State, t: nat)
    requires Serial(c, start, b, users, s) && t < |s.threads|
    requires s.threads[t].Working? && s.threads[t].b == b
    ensures users != [] && users[|users| - 1] == t
  {
    hide JudgeOn;
    assert t in users;
  }

  lemma KeepsSerial(c: Config, start: Box, b: int, users: seq<nat>, s: State, a: Action)
    requires Inv(c, s) && Enabled(c, s, a) && Serial(c, start, b, users, s)
    ensures Serial(c, start, b, users + Taker(s, a, b), Apply(c, s, a))
  {
    hide Serial, Enabled, Apply, OnCourse, NoLostWakeUp, TakeOrWait;
    SerialBasics(c, start, b, users, s);
    if Taker(s, a, b) != [] {
      TakerTakes(c, s, a, b);
      SerialGrows(c, start, b, users, s, a.t);
    } else {
      var s' := Apply(c, s, a);
      assert users + [] == users;
      BoxAfterAction(c, start, b, users, s, a);
      forall t | 0 <= t < |s.threads| ensures Carries(s, s', b, t) {
        NobodyTakes(c, s, a, b, t);
      }
      hide Carries;
      SerialStays(c, start, b, users, s, s');
    }
  }

  lemma TakerTakes(c: Config, s: State, a: Action, b: int)
    requires Enabled(c, s, a) && BoxesExist(s) && Taker(s, a, b) != []
    ensures Taker(s, a, b) == [a.t] && a.t < |s.threads| && (s.threads[a.t].Outside? || s.threads[a.t].Woken?)
    ensures s.available != [] && s.available[0] == b && Apply(c, s, a) == TakeOrWait(s, a.t)
  {
    hide TaskNext, SomeBlocked;
  }

  lemma NobodyTakes(c: Config, s: State, a: Action, b: int, t: nat)
    requires Enabled(c, s, a) && BoxesExist(s) && Taker(s, a, b) == [] && t < |s.threads|
    ensures |Apply(c, s, a).threads| == |s.threads| && Carries(s, Apply(c, s, a), b, t)
  {
    hide TaskNext, SomeBlocked, PcOk;
  }

  /** The box itself changes only under the hands of its last user. */
  lemma BoxAfterAction(c: Config, start: Box, b: int, users: seq<nat>, s: State, a: Action)
    requires Inv(c, s) && Enabled(c, s, a) && Serial(c, start, b, users, s) && Taker(s, a, b) == []
    ensures var s' := Apply(c, s, a);
      && |s'.threads| == |s.threads| == |c.tasks| && b in s.boxes && b in s'.boxes
      && (users == [] ==> s'.boxes[b] == s.boxes[b])
      && (users != [] ==>
            var last := users[|users| - 1];
            && last < |s.threads| && HasTaken(s.threads[last], b)
            && (!s'.threads[last].Working? ==> s'.boxes[b] == BoxLeftBy(c, s, b, last)))
  {
    hide JudgeOn, TaskNext, TaskRest, SomeBlocked, Serial, NoLostWakeUp, OnCourse, PcOk, Conserved, TakeOrWait;
    SerialBasics(c, start, b, users, s);
    BoxesOfInv(c, s);
    ThreadsOf(c, s, a);
    var th := s.threads[a.t];
    if th.Working? && th.b == b {
      WorkerIsLast(c, start, b, users, s, a.t);
      BoxAtTheEnd(c, s, a.t);
    } else {
      OtherBoxStays(c, s, a, b);
    }
  }

  lemma ThreadsOf(c: Config, s: State, a: Action)
    requires Enabled(c, s, a) && BoxesExist(s)
    ensures var s' := Apply(c, s, a);
      && |s'.threads| == |s.threads|
      && (s.threads[a.t].Working? ==>
            && (s'.threads[a.t].Working? <==> a.Operate?)
            && (!a.Operate? ==> s'.boxes == s.boxes && s.threads[a.t].pc.Finished?))
  {
    hide TaskNext, SomeBlocked, PcOk;
  }

  lemma OtherBoxStays(c: Config, s: State, a: Action, b: int)
    requires Enabled(c, s, a) && BoxesExist(s) && b in s.boxes
    requires !(s.threads[a.t].Working? && s.threads[a.t].b == b)
    ensures b in Apply(c, s, a).boxes && Apply(c, s, a).boxes[b] == s.boxes[b]
    ensures forall t :: 0 <= t < |s.threads| && HasTaken(s.threads[t], b) ==> Apply(c, s, a).threads[t] == s.threads[t]
  {
    hide TaskNext, SomeBlocked, PcOk;
  }

  /** What is known about a call that has come to its end. */
  lemma BoxAtTheEnd(c: Config, s: State, t: nat)
    requires Inv(c, s) && t < |s.threads| && s.threads[t].Working?
    ensures s.threads[t].b in s.boxes
    ensures s.threads[t].pc.Finished? ==> s.boxes[s.threads[t].b] == BoxLeftBy(c, s, s.threads[t].b, t)
  {
    hide JudgeOn, TaskRest, NoLostWakeUp;
    assert OnCourse(c, s, t);
    TaskEnds(c, t, s.threads[t].b, s.boxes[s.threads[t].b]);
  }

  lemma SerialBasics(c: Config, start: Box, b: int, users: seq<nat>, s: State)
    requires Serial(c, start, b, users, s)
    ensures |s.threads| == |c.tasks| && b in s.boxes
    ensures users != [] ==> users[|users| - 1] < |s.threads| && HasTaken(s.threads[users[|users| - 1]], b)
    ensures users != [] && !s.threads[users[|users| - 1]].Working? ==>
              s.boxes[b] == BoxLeftBy(c, s, b, users[|users| - 1])
  {
    hide JudgeOn;
  }

  lemma {:induction false} RunsKeepSerial(
    c: Config, start: Box, b: int, users: seq<nat>, s: State, acts: seq<Action>)
    requires Inv(c, s) && Runs(c, s, acts) && Serial(c, start, b, users, s)
    ensures Serial(c, start, b, users + Users(c, s, acts, b), After(c, s, acts))
    decreases |acts|
  {
    hide Inv, Enabled, Apply, Serial, Taker;
    if acts == [] {
      assert users + [] == users;
    } else {
      var s1, more := Apply(c, s, acts[0]), Taker(s, acts[0], b);
      KeepsInv(c, s, acts[0]);
      KeepsSerial(c, start, b, users, s, acts[0]);
      RunsKeepSerial(c, start, b, users + more, s1, acts[1..]);
      ConcatAssoc(users, more, Users(c, s1, acts[1..], b));
    }
  }

  /** In every run the calls that took a box form a serial chain: whatever the interleaving,
      each box went through the calls in it one after the other, each of them starting from
      what the one before it, alone, makes of the box. */
  lemma BoxesAreUsedSerially(c: Config, s: State, acts: seq<Action>, b: int)
    requires Initial(c, s) && Runs(c, s, acts) && b in c.ids
    ensures b in s.boxes
    ensures Serial(c, s.boxes[b], b, Users(c, s, acts, b), After(c, s, acts))
  {
    hide Runs, After, Users;
    assert Inv(c, s) by { StartsWell(c, s); }
    assert Serial(c, s.boxes[b], b, [], s);
    hide Inv, Serial;
    RunsKeepSerial(c, s.boxes[b], b, [], s, acts);
    assert [] + Users(c, s, acts, b) == Users(c, s, acts, b);
  }

  // ---------- the pool as it is built ----------

  /** The pool that the constructor of `BoxPool` leaves, before any call. */
  function BuiltPool(m: Machine, start: int, count: nat, tasks: seq<Submission>): Config {
    Config(m, Engine.InitializedIds(m, start, count), tasks)
  }

  function Untouched(c: Config, boxes: map<int, Box>): State {
    State(c.ids, seq(|c.tasks|, _ => Outside), boxes)
  }

  /** It is a state that the runs may start from. */
  lemma BuiltPoolIsInitial(m: Machine, start: int, count: nat, tasks: seq<Submission>, boxes: map<int, Box>)
    requires forall k :: 0 <= k < |BuiltPool(m, start, count, tasks).ids| ==>
               BuiltPool(m, start, count, tasks).ids[k] in boxes
    ensures Initial(BuiltPool(m, start, count, tasks), Untouched(BuiltPool(m, start, count, tasks), boxes))
  {
    Engine.InitializedIdsExact(m, start, count);
  }

  /** Exactly one of the queue and one thread has box `id`, and the queue has it once. */
  ghost predicate InOnePlace(s: State, id: int) {
    && NoDuplicates(s.available)
    && (id in s.available <==> !exists t :: 0 <= t < |s.threads| && Holds(s.threads[t], id))
    && forall t, u :: 0 <= t < |s.threads| && 0 <= u < |s.threads| && Holds(s.threads[t], id) && Holds(s.threads[u], id)
         ==> t == u
  }

  /** In every run of a pool as the constructor builds it, each box whose initialisation
      succeeded is in exactly one place, and no other box is anywhere. */
  lemma InitialisedBoxesAreInOnePlace(
    m: Machine, start: int, count: nat, tasks: seq<Submission>, boxes: map<int, Box>, acts: seq<Action>, id: int)
    requires forall k :: 0 <= k < |BuiltPool(m, start, count, tasks).ids| ==>
               BuiltPool(m, start, count, tasks).ids[k] in boxes
    requires Runs(BuiltPool(m, start, count, tasks), Untouched(BuiltPool(m, start, count, tasks), boxes), acts)
    ensures var c := BuiltPool(m, start, count, tasks);
      var s := After(c, Untouched(c, boxes), acts);
      && |s.threads| == |tasks|
      && (start <= id < start + count && m.initializes(id) ==> InOnePlace(s, id))
      && (!(start <= id < start + count && m.initializes(id)) ==>
            id !in s.available && forall t :: 0 <= t < |s.threads| ==> !Holds(s.threads[t], id))
  {
    hide Initial, Runs, After;
    var c := BuiltPool(m, start, count, tasks);
    BuiltPoolIsInitial(m, start, count, tasks, boxes);
    InterleavingIsInvisible(c, Untouched(c, boxes), acts);
    Engine.InitializedIdsExact(m, start, count);
    PlacesOf(c, After(c, Untouched(c, boxes), acts), id);
  }

  lemma PlacesOf(c: Config, s: State, id: int)
    requires Conserved(c, s)
    ensures |s.threads| == |c.tasks|
    ensures id in c.ids ==> InOnePlace(s, id)
    ensures id !in c.ids ==> id !in s.available && forall t :: 0 <= t < |s.threads| ==> !Holds(s.threads[t], id)
  {
    if t :| 0 <= t < |s.threads| && Holds(s.threads[t], id) {
      assert id !in s.available;
      assert s.threads[t].b == id;
    }
  }
}
