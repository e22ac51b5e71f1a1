/** When a judgement depends on the submission alone: what the compiler has to deliver so
    that nothing an earlier submission left in the box can matter. */
module Hermetic {
  import opened Base
  import opened Meta
  import opened Commands
  import opened Boxes
  import opened Messages
  import opened Judging
  import opened Concurrency

  /** A compilation: its meta file, its messages, and the files it leaves, if it leaves any. */
  datatype Build = Build(meta: string, errors: string, written: Files)

  datatype Execution = Execution(meta: string, output: string, errors: string)

  /** The boxes in which it can work at all, the files a program consists of, a compiler that
      looks at the source alone, and programs that look at their own files, their input and
      their limits alone. */
  datatype Toolchain = Toolchain(
    clean: Box -> bool,
    parts: (Language, string) -> set<string>,
    build: (Language, string) -> Build,
    exec: (Files, RunRequest) -> Execution)

  function PartsOf(tc: Toolchain, job: Job): set<string> {
    tc.parts(LanguageOf(job.language), job.code)
  }

  function BuildOf(tc: Toolchain, job: Job): Build {
    tc.build(LanguageOf(job.language), job.code)
  }

  /** The part of a box that is the program. */
  function Program(names: set<string>, files: Files): Files {
    map name | name in names && name in files :: files[name]
  }

  /** What a call itself puts into its box: the source, and what the compiler writes. */
  function Built(job: Job, b: Build): Files {
    map[SourceName(job) := job.code] + b.written
  }

  /** What has to be true of a box after a compilation; nothing is said about other files. */
  ghost predicate AfterBuild(names: set<string>, b: Build, before: Files, after: Files) {
    && Lookup(after, COMPILE_META) == Some(b.meta)
    && ReadFile(after, ERRORS) == b.errors
    && Program(names, after) == Program(names, before + b.written)
  }

  /** Likewise after a run: it leaves the program alone. */
  ghost predicate AfterExecution(names: set<string>, e: Execution, before: Files, after: Files) {
    && Lookup(after, RUN_META) == Some(e.meta)
    && ReadFile(after, OUTPUT) == e.output
    && ReadFile(after, ERRORS) == e.errors
    && Program(names, after) == Program(names, before)
  }

  /** A program has the file that the runs execute, and none that the sandbox itself uses. */
  ghost predicate AreParts(names: set<string>, job: Job) {
    Target(job) in names && names !! OWN_FILES
  }

  /** The program that a call builds itself. */
  function OwnProgram(tc: Toolchain, job: Job): Files {
    Program(PartsOf(tc, job), Built(job, BuildOf(tc, job)))
  }

  /** In a clean box everything before the call of the compiler succeeds. */
  ghost predicate CanPrepare(m: Machine, tc: Toolchain, job: Job) {
    forall id: int, box: Box :: tc.clean(box) ==>
      var (failure, box') := PrepareCompile(m, id, box, job.language, job.code);
      failure.None? && tc.clean(box')
  }

  /** In a clean box with the source of this job, isolate compiles as the toolchain says. */
  ghost predicate BuildsAs(m: Machine, tc: Toolchain, job: Job) {
    forall id: int, box: Box :: tc.clean(box) && Lookup(box.files, SourceName(job)) == Some(job.code) ==>
      var after := m.isolate(box, CompileCommand(m, id, job));
      && after.Some? && tc.clean(Box(after.value, box.calls + 1))
      && AfterBuild(PartsOf(tc, job), BuildOf(tc, job), box.files, after.value)
  }

  /** In a clean box with program `own` the input file can be written. */
  ghost predicate CanFeed(m: Machine, tc: Toolchain, own: Files, job: Job) {
    forall id: int, box: Box, input: string :: tc.clean(box) && Program(PartsOf(tc, job), box.files) == own ==>
      var (failure, box') := PrepareRun(m, id, box, Request(job, input));
      failure.None? && tc.clean(box')
  }

  /** In a clean box with program `own`, isolate runs that program as the toolchain says. What
      the same command does in boxes with other programs is left open. */
  ghost predicate ExecutesAs(m: Machine, tc: Toolchain, own: Files, job: Job) {
    forall id: int, box: Box ::
      tc.clean(box) && INPUT in box.files && Program(PartsOf(tc, job), box.files) == own ==>
      var after := m.isolate(box, RunCommand(m, id, job));
      && after.Some? && tc.clean(Box(after.value, box.calls + 1))
      && AfterExecution(PartsOf(tc, job), tc.exec(own, Request(job, box.files[INPUT])), box.files, after.value)
  }

  /** On machine `m` isolate does for this job and its own program what the toolchain says;
      about other submissions nothing is said. */
  ghost predicate IsHermetic(m: Machine, tc: Toolchain, job: Job) {
    && LanguageOf(job.language) != Unsupported
    && AreParts(PartsOf(tc, job), job)
    && CanPrepare(m, tc, job)
    && BuildsAs(m, tc, job)
    && CanFeed(m, tc, OwnProgram(tc, job), job)
    && ExecutesAs(m, tc, OwnProgram(tc, job), job)
  }

  // ---------- results without a box ----------

  function PureCompile(conv: Numerals, b: Build): Try<SandboxResult> {
    match ReadEntries(conv, Entries(Lines(b.meta)))
    case Threw => Threw
    case Returned(r) => Returned(r.(stderr := b.errors))
  }

  function PureRun(conv: Numerals, e: Execution): Try<SandboxResult> {
    match ReadEntries(conv, Entries(Lines(e.meta)))
    case Threw => Threw
    case Returned(r) => Returned(r.(stdout := e.output, stderr := e.errors, timedOut := r.status == "TO"))
  }

  function PureRuns(tc: Toolchain, conv: Numerals, program: Files, job: Job, tests: seq<TestCase>)
    : (outs: seq<Try<SandboxResult>>)
    ensures |outs| == |tests|
  {
    if tests == [] then []
    else
      [PureRun(conv, tc.exec(program, Request(job, tests[0].input)))] + PureRuns(tc, conv, program, job, tests[1..])
  }

  /** The judgement of a submission from toolchain and submission alone. */
  function PureJudge(tc: Toolchain, conv: Numerals, sub: Submission): Try<JudgeResult> {
    var job := JobOf(sub);
    var b := BuildOf(tc, job);
    match AfterCompile(PureCompile(conv, b))
    case Some(r) => r
    case None =>
      Judgement(sub.testcases, sub.memoryLimitKb, 0, PureRuns(tc, conv, OwnProgram(tc, job), job, sub.testcases))
  }

  /** The runs execute what this very call built: the compilation is reported as failed, or
      no run follows, or the call itself put every part of the program there. An exit code of
      0 alone does not say so, since a meta file without `exitcode` line reads as 0. */
  predicate RunsOwnProgram(conv: Numerals, names: set<string>, b: Build, sub: Submission) {
    || AfterCompile(PureCompile(conv, b)).Some?
    || sub.testcases == []
    || names <= Built(JobOf(sub), b).Keys
  }

  // ---------- one compilation and one run ----------

  lemma PreparedFiles(m: Machine, id: int, job: Job, box: Box)
    requires PrepareCompile(m, id, box, job.language, job.code).0.None?
    ensures PrepareCompile(m, id, box, job.language, job.code).1.files == box.files[SourceName(job) := job.code]
  {
    hide LanguageOf, ClassOf, SourceFile, BoxPath, SandboxFailure;
    assert SourceName(job) == SourceFile(LanguageOf(job.language), ClassOf(LanguageOf(job.language), job.code));
  }

  lemma FedFiles(m: Machine, id: int, job: Job, box: Box, input: string)
    requires PrepareRun(m, id, box, Request(job, input)).0.None?
    ensures PrepareRun(m, id, box, Request(job, input)).1.files == box.files[INPUT := input]
  {
    hide LanguageOf, ClassOf, SourceFile, BoxPath, SandboxFailure;
  }

  /** What the code looks at in a compilation result. */
  predicate SameCompile(a: Try<SandboxResult>, b: Try<SandboxResult>) {
    match a
    case Threw => b.Threw?
    case Returned(x) => b.Returned? && x.exitCode == b.value.exitCode && x.stderr == b.value.stderr
  }

  lemma InvokesBuild(m: Machine, tc: Toolchain, id: int, job: Job, box: Box)
    requires BuildsAs(m, tc, job) && tc.clean(box)
    requires Lookup(box.files, SourceName(job)) == Some(job.code)
    ensures var (ran, box') := InvokeCompiler(m, id, box, job.language, job.code);
      ran && tc.clean(box') && AfterBuild(PartsOf(tc, job), BuildOf(tc, job), box.files, box'.files)
  {
    hide LanguageOf, ClassOf, CommandLine, CompileArgs, MetaOption, AfterBuild, SourceName, PartsOf, BuildOf, Lookup;
    assert m.isolate(box, CompileCommand(m, id, job)).Some?;
  }

  lemma InvokesProgram(m: Machine, tc: Toolchain, own: Files, id: int, job: Job, box: Box, input: string)
    requires ExecutesAs(m, tc, own, job) && tc.clean(box)
    requires Program(PartsOf(tc, job), box.files) == own && Lookup(box.files, INPUT) == Some(input)
    ensures var (ran, box') := InvokeProgram(m, id, box, Request(job, input));
      && ran && tc.clean(box')
      && AfterExecution(PartsOf(tc, job), tc.exec(own, Request(job, input)), box.files, box'.files)
  {
    hide LanguageOf, ClassOf, CommandLine, RunArgs, MetaOption, AfterExecution, Program, PartsOf;
    assert m.isolate(box, RunCommand(m, id, job)).Some?;
  }

  lemma ReadsBuild(m: Machine, id: int, box: Box, b: Build)
    requires Lookup(box.files, COMPILE_META) == Some(b.meta) && ReadFile(box.files, ERRORS) == b.errors
    ensures SameCompile(ReadCompile(m, id, box, true), PureCompile(m.conv, b))
  {
    hide ReadEntries, Entries, Lines, BoxPath, ReadFile;
  }

  lemma ReadsExecution(m: Machine, id: int, box: Box, e: Execution)
    requires Lookup(box.files, RUN_META) == Some(e.meta)
    requires ReadFile(box.files, OUTPUT) == e.output && ReadFile(box.files, ERRORS) == e.errors
    ensures ReadRun(m, id, box, true) == PureRun(m.conv, e)
  {
    hide ReadEntries, Entries, Lines, BoxPath, ReadFile;
  }

  lemma BuiltInBox(files: Files, job: Job, b: Build)
    ensures files[SourceName(job) := job.code] + b.written == files + Built(job, b)
  {
    hide SourceName;
  }

  /** A compilation reports what the toolchain says, and leaves its files; parts of the program
      that it does not write stay what they were. */
  lemma HermeticCompile(m: Machine, tc: Toolchain, id: int, job: Job, box: Box)
    requires CanPrepare(m, tc, job) && BuildsAs(m, tc, job) && tc.clean(box)
    ensures var (out, box') := CompileOn(m, id, box, job.language, job.code);
      var b := BuildOf(tc, job);
      && SameCompile(out, PureCompile(m.conv, b)) && tc.clean(box')
      && Program(PartsOf(tc, job), box'.files) == Program(PartsOf(tc, job), box.files + Built(job, b))
  {
    hide LanguageOf, PrepareCompile, InvokeCompiler, BuildsAs, ReadCompile, PureCompile, SameCompile, Built, SourceName,
      ReadFile, Program, PartsOf, BuildOf;
    var b := BuildOf(tc, job);
    var (failure, box1) := PrepareCompile(m, id, box, job.language, job.code);
    assert failure.None? && tc.clean(box1);
    PreparedFiles(m, id, job, box);
    InvokesBuild(m, tc, id, job, box1);
    BuiltInBox(box.files, job, b);
    ReadsBuild(m, id, InvokeCompiler(m, id, box1, job.language, job.code).1, b);
  }

  lemma InputIsNoPart(names: set<string>, files: Files, job: Job, input: string)
    requires AreParts(names, job)
    ensures Program(names, files[INPUT := input]) == Program(names, files)
  {
    assert INPUT in OWN_FILES;
    hide Target;
  }

  /** A run in a box with program `own` reports the execution of that program on its own input
      and under its own limits, and leaves the program alone. */
  lemma HermeticRun(m: Machine, tc: Toolchain, own: Files, id: int, job: Job, box: Box, input: string)
    requires AreParts(PartsOf(tc, job), job) && CanFeed(m, tc, own, job) && ExecutesAs(m, tc, own, job)
    requires tc.clean(box) && Program(PartsOf(tc, job), box.files) == own
    ensures var (out, box') := RunOn(m, id, box, Request(job, input));
      && out == PureRun(m.conv, tc.exec(own, Request(job, input))) && tc.clean(box')
      && Program(PartsOf(tc, job), box'.files) == own
  {
    hide LanguageOf, PrepareRun, InvokeProgram, ExecutesAs, AreParts, ReadRun, PureRun, Program, ReadFile, Request,
      PartsOf, BuildOf;
    var q := Request(job, input);
    var (failure, box1) := PrepareRun(m, id, box, q);
    assert failure.None? && tc.clean(box1);
    FedFiles(m, id, job, box, input);
    InputIsNoPart(PartsOf(tc, job), box.files, job, input);
    InvokesProgram(m, tc, own, id, job, box1, input);
    ReadsExecution(m, id, InvokeProgram(m, id, box1, q).1, tc.exec(own, q));
  }

  // ---------- whole judgements ----------

  lemma {:induction false} HermeticRuns(
    m: Machine, tc: Toolchain, own: Files, id: int, job: Job, box: Box, tests: seq<TestCase>, i: nat)
    requires AreParts(PartsOf(tc, job), job) && CanFeed(m, tc, own, job) && ExecutesAs(m, tc, own, job)
    requires tc.clean(box) && Program(PartsOf(tc, job), box.files) == own && i <= |tests|
    ensures OutcomesWith(OpsOf(m, id, job), tests, box, i) == PureRuns(tc, m.conv, own, job, tests[i..])
    decreases |tests| - i
  {
    hide AreParts, CanFeed, ExecutesAs, Program, PartsOf, OpsOf, RunWith, RunOn, PureRun, Request;
    if i < |tests| {
      var (out, box') := RunWith(OpsOf(m, id, job), box, tests[i].input);
      OpsRun(m, id, job, box, tests[i].input);
      HermeticRun(m, tc, own, id, job, box, tests[i].input);
      HermeticRuns(m, tc, own, id, job, box', tests, i + 1);
      assert tests[i..][1..] == tests[i + 1..];
    }
  }

  lemma BuiltIsOwn(names: set<string>, files: Files, job: Job, b: Build)
    requires names <= Built(job, b).Keys
    ensures Program(names, files + Built(job, b)) == Program(names, Built(job, b))
  {
    hide Built;
  }

  /** With such a toolchain a judgement is the same in every clean box, whatever the box held,
      as long as the runs execute the program of this call. */
  lemma JudgementNeedsNoBox(m: Machine, tc: Toolchain, id: int, box: Box, sub: Submission)
    requires IsHermetic(m, tc, JobOf(sub)) && tc.clean(box)
    requires RunsOwnProgram(m.conv, PartsOf(tc, JobOf(sub)), BuildOf(tc, JobOf(sub)), sub)
    ensures JudgeOn(m, id, box, sub).0 == PureJudge(tc, m.conv, sub)
  {
    hide AreParts, CanPrepare, BuildsAs, CanFeed, ExecutesAs, Program, PartsOf, BuildOf, OpsOf, RunWith, RunOn,
      CompileOn, CompileWith, PureRun, PureCompile, Request, LanguageOf, Built, CasesWith;
    var job, tests, limit := JobOf(sub), sub.testcases, sub.memoryLimitKb;
    var ops, b, names := OpsOf(m, id, job), BuildOf(tc, job), PartsOf(tc, job);
    HermeticCompile(m, tc, id, job, box);
    OpsCompile(m, id, job, box);
    var (out, box') := CompileWith(ops, box);
    assert AfterCompile(out) == AfterCompile(PureCompile(m.conv, b));
    if AfterCompile(out).None? {
      JudgeMeetsJudgement(ops, tests, limit, box);
      if tests != [] {
        BuiltIsOwn(names, box.files, job, b);
        HermeticRuns(m, tc, OwnProgram(tc, job), id, job, box', tests, 0);
        assert tests[0..] == tests;
      }
    }
  }

  /** Concurrency, boxes and other submissions together: whatever the interleaving, the boxes
      at the start and what the other submissions do in their boxes, a call for which the
      toolchain speaks, and which was handed a clean box, gives the judgement of its submission
      from toolchain and submission alone. */
  lemma ConcurrentJudgingIsPure(tc: Toolchain, c: Config, s: State, acts: seq<Action>, t: nat)
    requires Initial(c, s) && Runs(c, s, acts) && t < |c.tasks|
    requires IsHermetic(c.m, tc, JobOf(c.tasks[t]))
    requires RunsOwnProgram(
      c.m.conv, PartsOf(tc, JobOf(c.tasks[t])), BuildOf(tc, JobOf(c.tasks[t])), c.tasks[t])
    ensures |After(c, s, acts).threads| == |c.tasks|
    ensures var th := After(c, s, acts).threads[t];
      && (th.Judged? && tc.clean(th.entry) ==> PureJudge(tc, c.m.conv, c.tasks[t]) == Returned(th.result))
      && (th.Failed? && tc.clean(th.entry) ==> PureJudge(tc, c.m.conv, c.tasks[t]) == Threw)
  {
    hide Initial, Runs, After, IsHermetic, RunsOwnProgram, PureJudge, JudgeOn, PartsOf, BuildOf;
    InterleavingIsInvisible(c, s, acts);
    var th := After(c, s, acts).threads[t];
    if (th.Judged? || th.Failed?) && tc.clean(th.entry) {
      JudgementNeedsNoBox(c.m, tc, th.b, th.entry, c.tasks[t]);
    }
  }

  lemma {:induction false} CasesKeepProgram(
    m: Machine, tc: Toolchain, own: Files, id: int, job: Job, box: Box,
    tests: seq<TestCase>, limit: int, i: nat, cases: seq<CaseResult>)
    requires AreParts(PartsOf(tc, job), job) && CanFeed(m, tc, own, job) && ExecutesAs(m, tc, own, job)
    requires tc.clean(box) && Program(PartsOf(tc, job), box.files) == own && i <= |tests|
    ensures var box' := CasesWith(OpsOf(m, id, job), tests, limit, box, i, cases).1;
      tc.clean(box') && Program(PartsOf(tc, job), box'.files) == own
    decreases |tests| - i
  {
    hide AreParts, CanFeed, ExecutesAs, Program, PartsOf, OpsOf, RunWith, RunOn, Request, CasesWith, CaseRow;
    if i == |tests| {
      CasesDone(OpsOf(m, id, job), tests, limit, box, cases);
    } else {
      CasesFrom(OpsOf(m, id, job), tests, limit, box, i, cases);
      var (out, box') := RunWith(OpsOf(m, id, job), box, tests[i].input);
      OpsRun(m, id, job, box, tests[i].input);
      HermeticRun(m, tc, own, id, job, box, tests[i].input);
      if out.Returned? {
        CasesKeepProgram(
          m, tc, own, id, job, box', tests, limit, i + 1, cases + [CaseRow(tests[i], i, limit, out.value)]);
      }
    }
  }

  /** A call that builds its whole program leaves exactly that program, whatever its verdict. */
  lemma CallLeavesProgram(m: Machine, tc: Toolchain, id: int, box: Box, sub: Submission)
    requires IsHermetic(m, tc, JobOf(sub)) && tc.clean(box)
    requires PartsOf(tc, JobOf(sub)) <= Built(JobOf(sub), BuildOf(tc, JobOf(sub))).Keys
    ensures var box' := JudgeOn(m, id, box, sub).1;
      tc.clean(box') && Program(PartsOf(tc, JobOf(sub)), box'.files) == OwnProgram(tc, JobOf(sub))
  {
    hide AreParts, CanPrepare, BuildsAs, CanFeed, ExecutesAs, Program, PartsOf, BuildOf, OpsOf, CompileOn, CompileWith,
      LanguageOf, Built, CasesWith, AfterCompile, JobOf;
    var job := JobOf(sub);
    HermeticCompile(m, tc, id, job, box);
    OpsCompile(m, id, job, box);
    var (out, box') := CompileWith(OpsOf(m, id, job), box);
    BuiltIsOwn(PartsOf(tc, job), box.files, job, BuildOf(tc, job));
    if AfterCompile(out).None? {
      CasesKeepProgram(m, tc, OwnProgram(tc, job), id, job, box', sub.testcases, sub.memoryLimitKb, 0, []);
    }
  }

  // ---------- when the compiler leaves no program ----------

  /** Programs that answer "stale" when their part `name` is the text "stale". */
  function Telltale(name: string): (Files, RunRequest) -> Execution {
    (program: Files, q: RunRequest) => Execution("", Answer(name, program), "")
  }

  function Answer(name: string, program: Files): string {
    if Lookup(program, name) == Some("stale") then "stale" else ""
  }

  function RunLength(lang: Language): nat {
    if lang == Java then 29 else if lang == Python then 14 else 13
  }

  /** A machine with the given toolchain for the language of `job`. It tells running from
      compiling by the length of the command, and compiles the source file that the command
      names, which stands last. */
  function MachineOf(conv: Numerals, tc: Toolchain, job: Job): Machine {
    Machine("isolate", _ => true, (_, _) => true, (_, _) => true,
      (box: Box, cmd: seq<string>) =>
        if |cmd| == RunLength(LanguageOf(job.language)) then
          Some(Executed(box.files,
                        tc.exec(Program(PartsOf(tc, job), box.files), Request(job, ReadFile(box.files, INPUT)))))
        else if cmd == [] then None
        else
          Some(Compiled(box.files, tc.build(LanguageOf(job.language), ReadFile(box.files, cmd[|cmd| - 1])))),
      conv)
  }

  function Compiled(files: Files, b: Build): Files {
    (files + b.written)[COMPILE_META := b.meta][ERRORS := b.errors]
  }

  function Executed(files: Files, e: Execution): Files {
    files[RUN_META := e.meta][OUTPUT := e.output][ERRORS := e.errors]
  }

  lemma CompiledIsAfterBuild(names: set<string>, files: Files, b: Build)
    requires names !! OWN_FILES
    ensures AfterBuild(names, b, files, Compiled(files, b))
  {
    assert COMPILE_META in OWN_FILES && ERRORS in OWN_FILES;
    assert |COMPILE_META| != |ERRORS|;
  }

  lemma ExecutedIsAfterExecution(names: set<string>, files: Files, e: Execution)
    requires names !! OWN_FILES
    ensures AfterExecution(names, e, files, Executed(files, e))
  {
    assert RUN_META in OWN_FILES && OUTPUT in OWN_FILES && ERRORS in OWN_FILES;
    assert |RUN_META| == 12 && |OUTPUT| == 10 && |ERRORS| == 9;
  }

  lemma CommandLengths(m: Machine, id: int, job: Job)
    requires LanguageOf(job.language) != Unsupported
    ensures |RunCommand(m, id, job)| == RunLength(LanguageOf(job.language)) != |CompileCommand(m, id, job)|
  {
    hide LanguageOf, ClassOf, CompileArgs, RunArgs, MetaOption, JobClass, RunLength;
    RunArgLength(LanguageOf(job.language), id, job.timeLimitMs, job.memoryLimitKb, JobClass(job));
    CompileArgLength(LanguageOf(job.language), id, JobClass(job));
  }

  lemma SourceStandsLast(m: Machine, id: int, job: Job)
    requires LanguageOf(job.language) != Unsupported
    ensures var cmd := CompileCommand(m, id, job);
      cmd != [] && cmd[|cmd| - 1] == SourceName(job)
  {
    CommandsKeepOrder(
      m.bin, LanguageOf(job.language), id, job.timeLimitMs, job.memoryLimitKb, JobClass(job), COMPILE_META);
    SourceEndsProgram(LanguageOf(job.language), JobClass(job));
    hide LanguageOf, JobClass, CompileSwitches, CompileProgram, CompileArgs, RunArgs, CommandLine, MetaOption,
      SourceFile, RunSwitches, RunProgram;
  }

  lemma SourceEndsProgram(lang: Language, className: string)
    requires lang != Unsupported
    ensures var program := CompileProgram(lang, className);
      program != [] && program[|program| - 1] == SourceFile(lang, className)
  {
    hide SourceFile;
  }

  lemma RunArgLength(lang: Language, id: int, timeLimitMs: int, memoryLimitKb: int, className: string)
    requires lang != Unsupported
    ensures |RunArgs(lang, id, timeLimitMs, memoryLimitKb, className)| + 2 == RunLength(lang)
  {
    hide RunHead;
  }

  lemma CompileArgLength(lang: Language, id: int, className: string)
    requires lang != Unsupported
    ensures |CompileArgs(lang, id, className)| + 2 != RunLength(lang)
  {
    hide ToString, SourceFile;
  }

  /** Nothing keeps the toolchain from working in any box. */
  ghost predicate WorksAnywhere(tc: Toolchain) {
    forall box :: tc.clean(box)
  }

  /** Isolate runs whatever program is in the box as the toolchain says. */
  ghost predicate RunsEverything(m: Machine, tc: Toolchain, job: Job) {
    forall own: Files :: CanFeed(m, tc, own, job) && ExecutesAs(m, tc, own, job)
  }

  /** Job `e` is run as job `job` is. */
  ghost predicate RunsAlike(tc: Toolchain, job: Job, e: Job) {
    && LanguageOf(e.language) == LanguageOf(job.language)
    && forall files: Files, input: string ::
         tc.exec(Program(PartsOf(tc, e), files), Request(e, input))
         == tc.exec(Program(PartsOf(tc, job), files), Request(job, input))
  }

  lemma PreparesAnything(conv: Numerals, tc: Toolchain, job: Job, e: Job)
    requires LanguageOf(e.language) != Unsupported && WorksAnywhere(tc)
    ensures CanPrepare(MachineOf(conv, tc, job), tc, e)
    ensures forall own: Files :: CanFeed(MachineOf(conv, tc, job), tc, own, e)
  {
    hide LanguageOf, ClassOf, SourceFile, BoxPath, SandboxFailure, Program, Request, PartsOf;
    forall id: int, box: Box, input: string
      ensures PrepareRun(MachineOf(conv, tc, job), id, box, Request(e, input)).0.None?
    {
      assert Request(e, input).language == e.language by { LanguageOfRequest(e, input); }
    }
  }

  lemma LanguageOfRequest(job: Job, input: string)
    ensures Request(job, input).language == job.language
  {
  }

  lemma MachineBuilds(conv: Numerals, tc: Toolchain, job: Job, e: Job)
    requires LanguageOf(e.language) != Unsupported && LanguageOf(e.language) == LanguageOf(job.language)
    requires AreParts(PartsOf(tc, e), e) && WorksAnywhere(tc)
    ensures BuildsAs(MachineOf(conv, tc, job), tc, e)
  {
    hide LanguageOf, AfterBuild, RunLength, Target, SourceName, CompileCommand, Compiled, Executed, PartsOf, Program,
      Request;
    var m := MachineOf(conv, tc, job);
    forall id: int, box: Box | Lookup(box.files, SourceName(e)) == Some(e.code)
      ensures m.isolate(box, CompileCommand(m, id, e)) == Some(Compiled(box.files, BuildOf(tc, e)))
      ensures AfterBuild(PartsOf(tc, e), BuildOf(tc, e), box.files, Compiled(box.files, BuildOf(tc, e)))
    {
      CommandLengths(m, id, e);
      SourceStandsLast(m, id, e);
      assert ReadFile(box.files, SourceName(e)) == e.code;
      CompiledIsAfterBuild(PartsOf(tc, e), box.files, BuildOf(tc, e));
    }
  }

  lemma MachineRuns(conv: Numerals, tc: Toolchain, job: Job, e: Job, own: Files)
    requires LanguageOf(e.language) != Unsupported && RunsAlike(tc, job, e)
    requires AreParts(PartsOf(tc, e), e) && WorksAnywhere(tc)
    ensures ExecutesAs(MachineOf(conv, tc, job), tc, own, e)
  {
    hide LanguageOf, AfterExecution, RunLength, Target, RunCommand, Compiled, Executed, PartsOf, Program, Request;
    var m := MachineOf(conv, tc, job);
    forall id: int, box: Box | INPUT in box.files
      ensures var ex := tc.exec(Program(PartsOf(tc, e), box.files), Request(e, box.files[INPUT]));
        && m.isolate(box, RunCommand(m, id, e)) == Some(Executed(box.files, ex))
        && AfterExecution(PartsOf(tc, e), ex, box.files, Executed(box.files, ex))
    {
      var ex := tc.exec(Program(PartsOf(tc, e), box.files), Request(e, box.files[INPUT]));
      CommandLengths(m, id, e);
      assert ReadFile(box.files, INPUT) == box.files[INPUT];
      ExecutedIsAfterExecution(PartsOf(tc, e), box.files, ex);
    }
  }

  /** The machine does what the toolchain says for every job that is run as `job` is. */
  lemma MachineOfIsHermetic(conv: Numerals, tc: Toolchain, job: Job, e: Job)
    requires LanguageOf(e.language) != Unsupported && RunsAlike(tc, job, e)
    requires AreParts(PartsOf(tc, e), e) && WorksAnywhere(tc)
    ensures var m := MachineOf(conv, tc, job);
      IsHermetic(m, tc, e) && RunsEverything(m, tc, e)
  {
    hide LanguageOf, MachineOf, CanPrepare, BuildsAs, CanFeed, ExecutesAs, PartsOf, OwnProgram, AreParts, Request,
      Program;
    PreparesAnything(conv, tc, job, e);
    MachineBuilds(conv, tc, job, e);
    forall own: Files ensures ExecutesAs(MachineOf(conv, tc, job), tc, own, e) {
      MachineRuns(conv, tc, job, e, own);
    }
  }

  /** A submission whose compilation ends with exit code 0 and leaves out a part of the program
      is judged by what stands in the box: two boxes, two different results. */
  lemma StaleProgramDecides(
    conv: Numerals, parts: (Language, string) -> set<string>, build: (Language, string) -> Build, sub: Submission)
    returns (m: Machine, tc: Toolchain, box1: Box, box2: Box)
    requires LanguageOf(sub.language) != Unsupported
    requires AreParts(parts(LanguageOf(sub.language), sub.code), JobOf(sub))
    requires !RunsOwnProgram(
      conv, parts(LanguageOf(sub.language), sub.code), build(LanguageOf(sub.language), sub.code), sub)
    ensures tc.parts == parts && tc.build == build && m.conv == conv && WorksAnywhere(tc)
    ensures IsHermetic(m, tc, JobOf(sub)) && RunsEverything(m, tc, JobOf(sub))
    ensures JudgeOn(m, 0, box1, sub).0 != JudgeOn(m, 0, box2, sub).0
  {
    hide LanguageOf, JudgeOn, PureCompile, IsHermetic, RunsEverything, MachineOf, AreParts, Built;
    var names := parts(LanguageOf(sub.language), sub.code);
    var missing :| missing in names && missing !in Built(JobOf(sub), build(LanguageOf(sub.language), sub.code));
    tc := Toolchain(_ => true, parts, build, Telltale(missing));
    m := MachineOf(conv, tc, JobOf(sub));
    MachineOfIsHermetic(conv, tc, JobOf(sub), JobOf(sub));
    assert m.conv == conv by { ConvOf(conv, tc, JobOf(sub)); }
    box1 := Box(map[], 0);
    box2 := Box(map[missing := "stale"], 0);
    FirstOutput(m, tc, box1, sub, missing);
    FirstOutput(m, tc, box2, sub, missing);
  }

  lemma ConvOf(conv: Numerals, tc: Toolchain, job: Job)
    ensures MachineOf(conv, tc, job).conv == conv
  {
  }

  /** Without this part of its own the call reports what it found in the box. */
  lemma FirstOutput(m: Machine, tc: Toolchain, box: Box, sub: Submission, missing: string)
    requires IsHermetic(m, tc, JobOf(sub)) && RunsEverything(m, tc, JobOf(sub))
    requires tc.clean(box) && tc.exec == Telltale(missing)
    requires !RunsOwnProgram(m.conv, PartsOf(tc, JobOf(sub)), BuildOf(tc, JobOf(sub)), sub)
    requires missing in PartsOf(tc, JobOf(sub)) && missing !in Built(JobOf(sub), BuildOf(tc, JobOf(sub)))
    ensures var r := JudgeOn(m, 0, box, sub).0;
      r.Returned? && r.value.cases != [] && r.value.cases[0].actual == Answer(missing, box.files)
  {
    hide AreParts, CanPrepare, BuildsAs, CanFeed, ExecutesAs, PartsOf, BuildOf, OpsOf, RunWith, RunOn, CompileOn,
      CompileWith, PureCompile, Request, LanguageOf, Built, Telltale, PureRuns, CasesWith, CaseVerdict, OwnProgram;
    var job, tests, limit := JobOf(sub), sub.testcases, sub.memoryLimitKb;
    var ops := OpsOf(m, 0, job);
    HermeticCompile(m, tc, 0, job, box);
    OpsCompile(m, 0, job, box);
    var (out, box') := CompileWith(ops, box);
    assert AfterCompile(out) == AfterCompile(PureCompile(m.conv, BuildOf(tc, job)));
    JudgeMeetsJudgement(ops, tests, limit, box);
    var program := Program(PartsOf(tc, job), box'.files);
    assert Answer(missing, program) == Answer(missing, box.files);
    HermeticRuns(m, tc, program, 0, job, box', tests, 0);
    assert tests[0..] == tests;
    hide Program, Answer;
    TelltaleReturns(tc, m.conv, program, job, tests, missing);
    FirstRow(tests, limit, OutcomesWith(ops, tests, box', 0), Answer(missing, program));
  }

  /** The output of the first run stands in the first row. */
  lemma FirstRow(tests: seq<TestCase>, limit: int, outs: seq<Try<SandboxResult>>, answer: string)
    requires tests != [] && |outs| == |tests|
    requires forall i :: 0 <= i < |outs| ==> outs[i].Returned? && outs[i].value.stdout == answer
    ensures var r := Judgement(tests, limit, 0, outs);
      r.Returned? && r.value.cases != [] && r.value.cases[0].actual == answer
  {
    hide CaseVerdict, PeakTime, PeakMemory, Judgement;
    JudgementCharacterised(tests, limit, outs);
  }

  lemma {:induction false} TelltaleReturns(
    tc: Toolchain, conv: Numerals, program: Files, job: Job, tests: seq<TestCase>, name: string)
    requires tc.exec == Telltale(name)
    ensures var outs := PureRuns(tc, conv, program, job, tests);
      forall i :: 0 <= i < |outs| ==> outs[i].Returned? && outs[i].value.stdout == Answer(name, program)
  {
    hide PureRun, Answer, Request;
    if tests != [] {
      TelltaleReturns(tc, conv, program, job, tests[1..], name);
      var answer, outs := Answer(name, program), PureRuns(tc, conv, program, job, tests);
      SilentRun(conv, answer);
      forall i | 0 <= i < |outs| ensures outs[i].Returned? && outs[i].value.stdout == answer {
        if i > 0 {
          assert outs[i] == PureRuns(tc, conv, program, job, tests[1..])[i - 1];
        }
      }
    }
  }

  lemma SilentRun(conv: Numerals, output: string)
    ensures var r := PureRun(conv, Execution("", output, ""));
      r.Returned? && r.value.stdout == output
  {
    assert Lines("") == [] && Entries([]) == [];
  }

  /** Exactly when a judgement can depend on nothing but the submission: for every toolchain
      with these parts and compilations, all clean boxes give the same result if and only if the
      runs execute the program of the call itself. */
  lemma BoxesMatterIffNoProgram(
    conv: Numerals, parts: (Language, string) -> set<string>, build: (Language, string) -> Build, sub: Submission)
    requires LanguageOf(sub.language) != Unsupported
    requires AreParts(parts(LanguageOf(sub.language), sub.code), JobOf(sub))
    ensures
      RunsOwnProgram(conv, parts(LanguageOf(sub.language), sub.code), build(LanguageOf(sub.language), sub.code), sub)
      <==>
      forall m: Machine, tc: Toolchain, id: int, box: Box, id': int, box': Box ::
        && tc.parts == parts && tc.build == build && m.conv == conv
        && IsHermetic(m, tc, JobOf(sub)) && tc.clean(box) && tc.clean(box') ==>
        JudgeOn(m, id, box, sub).0 == JudgeOn(m, id', box', sub).0
  {
    hide LanguageOf, JudgeOn, RunsOwnProgram, IsHermetic, RunsEverything, PureJudge, AreParts;
    var names, b := parts(LanguageOf(sub.language), sub.code), build(LanguageOf(sub.language), sub.code);
    if RunsOwnProgram(conv, names, b, sub) {
      forall m: Machine, tc: Toolchain, id: int, box: Box, id': int, box': Box
        | && tc.parts == parts && tc.build == build && m.conv == conv
          && IsHermetic(m, tc, JobOf(sub)) && tc.clean(box) && tc.clean(box')
        ensures JudgeOn(m, id, box, sub).0 == JudgeOn(m, id', box', sub).0
      {
        JudgementNeedsNoBox(m, tc, id, box, sub);
        JudgementNeedsNoBox(m, tc, id', box', sub);
      }
    } else {
      var m, tc, box1, box2 := StaleProgramDecides(conv, parts, build, sub);
    }
  }

  // ---------- the failing input ----------

  /** A compiler that wrote nothing, and whose meta file does not give an exit code. */
  ghost predicate LeftNothing(conv: Numerals, b: Build) {
    && b.written == map[]
    && ReadEntries(conv, Entries(Lines(b.meta))).Returned?
    && Last(Entries(Lines(b.meta)), {ExitCode}) < 0
  }

  /** Such a compilation counts as good. */
  lemma NoExitCodeReadsAsZero(conv: Numerals, b: Build)
    requires LeftNothing(conv, b)
    ensures AfterCompile(PureCompile(conv, b)).None?
  {
    hide Entries, Lines, ReadEntries, IsTimeOf, Last;
    MetaClosedForm(conv, Entries(Lines(b.meta)));
  }

  /** In every language but Python, whose source is its program, the runs after it do not
      execute a program of this call. */
  lemma NothingBuiltNothingOwn(conv: Numerals, names: set<string>, b: Build, sub: Submission)
    requires LanguageOf(sub.language) != Unsupported && LanguageOf(sub.language) != Python
    requires sub.testcases != [] && AreParts(names, JobOf(sub)) && LeftNothing(conv, b)
    ensures !RunsOwnProgram(conv, names, b, sub)
  {
    hide LanguageOf, LeftNothing, PureCompile, Target, SourceName;
    NoExitCodeReadsAsZero(conv, b);
    TargetApart(JobOf(sub));
    assert b.written == map[] by { WroteNothing(conv, b); }
    assert Target(JobOf(sub)) !in Built(JobOf(sub), b);
  }

  lemma WroteNothing(conv: Numerals, b: Build)
    requires LeftNothing(conv, b)
    ensures b.written == map[]
  {
  }

  /** A compiler killed at its wall limit. */
  const KILLED := Build("status:TO\nkilled:1", "", map[])

  lemma KilledLeftNothing(conv: Numerals)
    ensures LeftNothing(conv, KILLED)
  {
    KilledEntries();
    hide Lines, Entries;
    assert KILLED.meta == "status" + ":" + "TO" + "\n" + ("killed" + ":" + "1");
    NothingMalformed(conv, KILLED.meta);
  }

  lemma NothingMalformed(conv: Numerals, meta: string)
    requires Entries(Lines(meta)) == [Entry(RawStatus, "TO"), Entry(Killed, "1")]
    ensures ReadEntries(conv, Entries(Lines(meta))).Returned?
    ensures Last(Entries(Lines(meta)), {ExitCode}) < 0
  {
    hide Lines, Entries, ReadEntries;
    ThrowsIffMalformed(conv, Entries(Lines(meta)));
  }

  lemma NoNewline(line: string)
    requires line != "" && '\n' !in line
    ensures Lines(line) == [line]
  {
    OnlyLine(line);
  }

  lemma KilledEntries()
    ensures Entries(Lines("status" + ":" + "TO" + "\n" + ("killed" + ":" + "1")))
         == [Entry(RawStatus, "TO"), Entry(Killed, "1")]
  {
    FieldsOfKilled();
    FieldAndText("status", "TO");
    FieldAndText("killed", "1");
    hide FieldOf;
    TwoLines("status" + ":" + "TO", "killed" + ":" + "1");
  }

  lemma FieldsOfKilled()
    ensures FieldOf("status") == RawStatus && FieldOf("killed") == Killed
  {
    assert "status"[0] == 's' && "killed"[0] == 'k';
  }

  lemma OneEntry(line: string)
    ensures Entries([line]) == [EntryOf(line)]
  {
  }

  lemma TwoLines(first: string, second: string)
    requires '\n' !in first && '\n' !in second && second != ""
    ensures Entries(Lines(first + "\n" + second)) == [EntryOf(first), EntryOf(second)]
  {
    hide Lines, EntryOf;
    LinesOfFirst(first, second);
    NoNewline(second);
    EntriesJoin([first], [second]);
    OneEntry(first);
    OneEntry(second);
  }

  lemma FieldAndText(key: string, text: string)
    requires ':' !in key
    ensures EntryOf(key + ":" + text) == Entry(FieldOf(key), text)
  {
    hide FieldOf, Find;
    var line := key + ":" + text;
    assert line[|key|] == ':';
    assert forall j :: 0 <= j < |key| ==> line[j] == key[j] && key[j] in key;
    assert line[..|key|] == key && line[|key| + 1..] == text;
  }

  /** A compiler that is killed on one source and leaves a program for every other, and
      programs that tell whether they are there. */
  function KilledOn(sub: Submission): Toolchain {
    var target := Target(JobOf(sub));
    Toolchain(
      _ => true,
      (lang: Language, code: string) => {target, Artefact(lang, ClassOf(lang, code))},
      (lang: Language, code: string) =>
        if code == sub.code then KILLED
        else Build("", "", map[target := "stale", Artefact(lang, ClassOf(lang, code)) := "stale"]),
      Telltale(target))
  }

  lemma KilledOnSub(sub: Submission)
    ensures WorksAnywhere(KilledOn(sub))
    ensures PartsOf(KilledOn(sub), JobOf(sub)) == {Target(JobOf(sub))}
    ensures BuildOf(KilledOn(sub), JobOf(sub)) == KILLED
    ensures KilledOn(sub).exec == Telltale(Target(JobOf(sub)))
    ensures AreParts(PartsOf(KilledOn(sub), JobOf(sub)), JobOf(sub))
  {
    TargetApart(JobOf(sub));
    hide LanguageOf, ClassOf, Artefact, Telltale;
  }

  lemma KilledOnOther(sub: Submission, e: Submission)
    requires e.code != sub.code
    ensures var tc, job := KilledOn(sub), JobOf(e);
      && AreParts(PartsOf(tc, job), job)
      && Target(JobOf(sub)) in PartsOf(tc, job) && PartsOf(tc, job) <= Built(job, BuildOf(tc, job)).Keys
      && Lookup(OwnProgram(tc, job), Target(JobOf(sub))) == Some("stale")
  {
    TargetApart(JobOf(sub));
    TargetApart(JobOf(e));
    hide LanguageOf, ClassOf, Artefact, Telltale, SourceName;
    assert Target(JobOf(e)) == Artefact(LanguageOf(e.language), ClassOf(LanguageOf(e.language), e.code));
  }

  lemma AskedAlike(sub: Submission, e: Submission)
    requires LanguageOf(e.language) == LanguageOf(sub.language) && e.code != sub.code
    ensures RunsAlike(KilledOn(sub), JobOf(sub), JobOf(sub)) && RunsAlike(KilledOn(sub), JobOf(sub), JobOf(e))
  {
    var tc, target := KilledOn(sub), Target(JobOf(sub));
    KilledOnSub(sub);
    KilledOnOther(sub, e);
    hide LanguageOf, PartsOf, KilledOn, Request, AreParts, Target, OwnProgram, Built;
    forall files: Files
      ensures Answer(target, Program(PartsOf(tc, JobOf(e)), files))
           == Answer(target, Program(PartsOf(tc, JobOf(sub)), files))
    {
    }
  }

  /** The input on which the code falls short, from a fresh box on: an ordinary submission `e`
      was judged in the box before; the compiler of `sub`, with a test and in any language but
      Python, is killed; the call goes on and gives another result than in the fresh box, the
      one that the program of `e` decides. */
  lemma KilledCompilerRunsLeftovers(conv: Numerals, sub: Submission, e: Submission)
    returns (m: Machine, tc: Toolchain)
    requires LanguageOf(sub.language) != Unsupported && LanguageOf(sub.language) != Python
    requires sub.testcases != []
    requires LanguageOf(e.language) == LanguageOf(sub.language) && e.code != sub.code
    ensures m.conv == conv && BuildOf(tc, JobOf(sub)) == KILLED
    ensures IsHermetic(m, tc, JobOf(sub)) && IsHermetic(m, tc, JobOf(e)) && WorksAnywhere(tc)
    ensures RunsOwnProgram(conv, PartsOf(tc, JobOf(e)), BuildOf(tc, JobOf(e)), e)
    ensures var empty := Box(map[], 0);
      JudgeOn(m, 0, empty, sub).0 != JudgeOn(m, 0, JudgeOn(m, 0, empty, e).1, sub).0
  {
    hide LanguageOf, JudgeOn, IsHermetic, RunsEverything, LeftNothing, Target, MachineOf, PartsOf, BuildOf, Built,
      OwnProgram, KilledOn, RunsAlike, AreParts, PureCompile, Telltale;
    var job, target, empty := JobOf(sub), Target(JobOf(sub)), Box(map[], 0);
    tc := KilledOn(sub);
    m := MachineOf(conv, tc, job);
    assert m.conv == conv by { ConvOf(conv, tc, job); }
    KilledOnSub(sub);
    KilledOnOther(sub, e);
    AskedAlike(sub, e);
    MachineOfIsHermetic(conv, tc, job, job);
    MachineOfIsHermetic(conv, tc, job, JobOf(e));
    var used := JudgeOn(m, 0, empty, e).1;
    CallLeavesProgram(m, tc, 0, empty, e);
    assert Lookup(used.files, target) == Some("stale");
    KilledLeftNothing(conv);
    NothingBuiltNothingOwn(conv, PartsOf(tc, job), KILLED, sub);
    assert target !in Built(job, KILLED) by { NotBuilt(conv, job); }
    hide RunsOwnProgram;
    FirstOutput(m, tc, empty, sub, target);
    FirstOutput(m, tc, used, sub, target);
  }

  lemma NotBuilt(conv: Numerals, job: Job)
    requires LanguageOf(job.language) != Unsupported && LanguageOf(job.language) != Python
    ensures Target(job) !in Built(job, KILLED)
  {
    TargetApart(job);
    hide LanguageOf, Target, SourceName;
  }

}
