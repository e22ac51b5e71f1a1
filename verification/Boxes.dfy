/** One isolate box as a value, the machine it stands on, and what compiling and
    running in it do to its files. */
module Boxes {
  import opened Base
  import opened Meta
  import opened Switches
  import opened Commands

  type Files = map<string, string>

  /** The files of a box, and how often the environment was consulted for it: the
      answers below may differ from one consultation to the next. */
  datatype Box = Box(files: Files, calls: nat)

  /** What the code cannot see. `isolate` gives the files after an invocation, or `None`
      when `std::system` itself fails; it is handed one box and can change no other. */
  datatype Machine = Machine(
    bin: string,
    initializes: int -> bool,
    opens: (Box, string) -> bool,
    makesDir: (Box, string) -> bool,
    isolate: (Box, seq<string>) -> Option<Files>,
    conv: Numerals)

  const COMPILE_META := "compile_meta.txt"
  const RUN_META := "run_meta.txt"
  const INPUT := "input.txt"
  const OUTPUT := "output.txt"
  const ERRORS := "error.txt"

  function BoxPath(id: int): string {
    "/var/local/lib/isolate/" + ToString(id) + "/box/"
  }

  // ---------- files ----------

  /** `write_file`: nothing is written when the file cannot be opened. */
  function WriteOn(m: Machine, id: int, box: Box, name: string, content: string): (bool, Box) {
    if m.opens(box, BoxPath(id) + name) then (true, Box(box.files[name := content], box.calls + 1))
    else (false, Box(box.files, box.calls + 1))
  }

  function MakeDirOn(m: Machine, id: int, box: Box, name: string): (bool, Box) {
    (m.makesDir(box, BoxPath(id) + name), Box(box.files, box.calls + 1))
  }

  function Lookup(files: Files, name: string): Option<string> {
    if name in files then Some(files[name]) else None
  }

  /** `read_file`: a missing file reads as the empty text. */
  function ReadFile(files: Files, name: string): string {
    match Lookup(files, name) case Some(text) => text case None => ""
  }

  // ---------- executing isolate ----------

  function MetaOption(id: int, meta: string): string {
    Assign(NameOf(MetaFile), BoxPath(id) + meta)
  }

  /** A list with `token` put before the first `mark`, or last when there is no mark. */
  function InsertBefore<T(==)>(args: seq<T>, mark: T, token: T): seq<T> {
    var k := Find(args, mark);
    args[..k] + [token] + args[k..]
  }

  /** The command of `execute`. */
  function CommandLine(bin: string, args: seq<string>, token: string): seq<string> {
    [bin] + InsertBefore(args, RUN_MARK, token)
  }

  /** An isolate command in one box: whether the shell call could be made, and the box after it. */
  function IsolateIn(m: Machine, box: Box, cmd: seq<string>): (bool, Box) {
    match m.isolate(box, cmd)
    case None => (false, Box(box.files, box.calls + 1))
    case Some(files) => (true, Box(files, box.calls + 1))
  }

  function IsolateOn(m: Machine, id: int, box: Box, args: seq<string>, meta: string): (bool, Box) {
    IsolateIn(m, box, CommandLine(m.bin, args, MetaOption(id, meta)))
  }

  /** The shell call on a host with many boxes: isolate works in the box that the command names,
      whichever that is. */
  function IsolateAll(m: Machine, boxes: map<int, Box>, cmd: seq<string>): (bool, map<int, Box>) {
    match BoxNamed(cmd)
    case None => (false, boxes)
    case Some(b) =>
      if b !in boxes then (false, boxes)
      else
        var (ran, box) := IsolateIn(m, boxes[b], cmd);
        (ran, boxes[b := box])
  }

  /** The box that a command names; its first token is the name of isolate itself. */
  function BoxNamed(cmd: seq<string>): Option<int> {
    if cmd == [] then None
    else match ReadSwitch(cmd[1..], "box-id") case None => None case Some(text) => NumberOf(text)
  }

  /** What `execute` reads back from the box. */
  function ReadBack(m: Machine, id: int, box: Box, ran: bool, meta: string): Try<SandboxResult> {
    if !ran then Returned(SandboxFailure("Failed to execute isolate binary"))
    else
      match MetaResult(m.conv, Lookup(box.files, meta), BoxPath(id) + meta)
      case Threw => Threw
      case Returned(r) =>
        Returned(r.(stdout := ReadFile(box.files, OUTPUT), stderr := ReadFile(box.files, ERRORS)))
  }

  // ---------- compiling ----------

  function ClassOf(lang: Language, code: string): string {
    if lang == Java then JavaClassName(code) else "Main"
  }

  /** Everything `compile` does before it calls isolate: `Some` is an early failure. */
  function PrepareCompile(m: Machine, id: int, box: Box, language: string, code: string): (Option<SandboxResult>, Box) {
    var lang := LanguageOf(language);
    if lang == Unsupported then (Some(SandboxFailure("Unsupported language: " + language)), box)
    else if lang == Go then
      var (made, box1) := MakeDirOn(m, id, box, "tmp");
      if !made then (Some(SandboxFailure("Failed to create Go temp directory")), box1)
      else
        var (cached, box2) := MakeDirOn(m, id, box1, "tmp/go-cache");
        if !cached then (Some(SandboxFailure("Failed to create Go build cache directory")), box2)
        else WriteSource(m, id, box2, lang, code)
    else WriteSource(m, id, box, lang, code)
  }

  function WriteSource(m: Machine, id: int, box: Box, lang: Language, code: string): (Option<SandboxResult>, Box) {
    var name := SourceFile(lang, ClassOf(lang, code));
    var (written, box') := WriteOn(m, id, box, name, code);
    if written then (None, box') else (Some(SandboxFailure("Failed to write source file: " + name)), box')
  }

  function InvokeCompiler(m: Machine, id: int, box: Box, language: string, code: string): (bool, Box) {
    var lang := LanguageOf(language);
    IsolateOn(m, id, box, CompileArgs(lang, id, ClassOf(lang, code)), COMPILE_META)
  }

  /** The result of a compilation, with the second look into the error file. */
  function ReadCompile(m: Machine, id: int, box: Box, ran: bool): Try<SandboxResult> {
    match ReadBack(m, id, box, ran, COMPILE_META)
    case Threw => Threw
    case Returned(r) => Returned(if r.stderr == "" then r.(stderr := ReadFile(box.files, ERRORS)) else r)
  }

  function CompileOn(m: Machine, id: int, box: Box, language: string, code: string): (Try<SandboxResult>, Box) {
    var (failure, box1) := PrepareCompile(m, id, box, language, code);
    match failure
    case Some(r) => (Returned(r), box1)
    case None =>
      var (ran, box2) := InvokeCompiler(m, id, box1, language, code);
      (ReadCompile(m, id, box2, ran), box2)
  }

  // ---------- running ----------

  /** What one run is asked to do. */
  datatype RunRequest = RunRequest(
    language: string, className: string, timeLimitMs: int, memoryLimitKb: int, input: string)

  function PrepareRun(m: Machine, id: int, box: Box, q: RunRequest): (Option<SandboxResult>, Box) {
    var (written, box') := WriteOn(m, id, box, INPUT, q.input);
    if !written then (Some(SandboxFailure("Failed to write input file")), box')
    else if LanguageOf(q.language) == Unsupported then
      (Some(SandboxFailure("Unsupported language: " + q.language)), box')
    else (None, box')
  }

  function InvokeProgram(m: Machine, id: int, box: Box, q: RunRequest): (bool, Box) {
    var lang := LanguageOf(q.language);
    IsolateOn(m, id, box, RunArgs(lang, id, q.timeLimitMs, q.memoryLimitKb, q.className), RUN_META)
  }

  /** The result of a run: the time-out flag is recomputed from the raw status. */
  function ReadRun(m: Machine, id: int, box: Box, ran: bool): Try<SandboxResult> {
    match ReadBack(m, id, box, ran, RUN_META)
    case Threw => Threw
    case Returned(r) => Returned(r.(timedOut := r.status == "TO"))
  }

  function RunOn(m: Machine, id: int, box: Box, q: RunRequest): (Try<SandboxResult>, Box) {
    var (failure, box1) := PrepareRun(m, id, box, q);
    match failure
    case Some(r) => (Returned(r), box1)
    case None =>
      var (ran, box2) := InvokeProgram(m, id, box1, q);
      (ReadRun(m, id, box2, ran), box2)
  }

  // ---------- the operations of one judge call ----------

  /** The atomic operations of one `judge` call on its box: between two of them other
      threads may run. */
  datatype BoxOps = BoxOps(
    prepareCompile: Box -> (Option<SandboxResult>, Box),
    invokeCompiler: Box -> (bool, Box),
    readCompile: (Box, bool) -> Try<SandboxResult>,
    prepareRun: (Box, string) -> (Option<SandboxResult>, Box),
    invokeProgram: (Box, string) -> (bool, Box),
    readRun: (Box, bool) -> Try<SandboxResult>)

  /** What the operations of a call depend on besides the box and the test input. */
  datatype Job = Job(language: string, code: string, timeLimitMs: int, memoryLimitKb: int)

  function Request(job: Job, input: string): RunRequest {
    RunRequest(job.language, ClassOf(LanguageOf(job.language), job.code), job.timeLimitMs, job.memoryLimitKb, input)
  }

  function OpsOf(m: Machine, id: int, job: Job): BoxOps {
    BoxOps(
      box => PrepareCompile(m, id, box, job.language, job.code),
      box => InvokeCompiler(m, id, box, job.language, job.code),
      (box, ran) => ReadCompile(m, id, box, ran),
      (box, input) => PrepareRun(m, id, box, Request(job, input)),
      (box, input) => InvokeProgram(m, id, box, Request(job, input)),
      (box, ran) => ReadRun(m, id, box, ran))
  }

  function CompileWith(ops: BoxOps, box: Box): (Try<SandboxResult>, Box) {
    var (failure, box1) := ops.prepareCompile(box);
    match failure
    case Some(r) => (Returned(r), box1)
    case None =>
      var (ran, box2) := ops.invokeCompiler(box1);
      (ops.readCompile(box2, ran), box2)
  }

  function RunWith(ops: BoxOps, box: Box, input: string): (Try<SandboxResult>, Box) {
    var (failure, box1) := ops.prepareRun(box, input);
    match failure
    case Some(r) => (Returned(r), box1)
    case None =>
      var (ran, box2) := ops.invokeProgram(box1, input);
      (ops.readRun(box2, ran), box2)
  }

  lemma OpsCompile(m: Machine, id: int, job: Job, box: Box)
    ensures CompileWith(OpsOf(m, id, job), box) == CompileOn(m, id, box, job.language, job.code)
  {
    hide PrepareCompile, InvokeCompiler, ReadCompile;
  }

  lemma OpsRun(m: Machine, id: int, job: Job, box: Box, input: string)
    ensures RunWith(OpsOf(m, id, job), box, input) == RunOn(m, id, box, Request(job, input))
  {
    hide PrepareRun, InvokeProgram, ReadRun, Request;
  }

  // ---------- properties of the commands ----------

  lemma SplitAround<T>(a: seq<T>, x: T, b: seq<T>)
    ensures (a + [x] + b)[..|a|] == a && (a + [x] + b)[|a| + 1..] == b
    ensures b != [] ==> (a + [x] + b)[|a| + 1] == b[0]
    ensures multiset(a + [x] + b) == multiset(a + b) + multiset{x}
  {
  }

  /** For any argument list, `execute` adds exactly one token: it stands immediately before
      the first mark, or last when there is none, and removing it gives the list back. */
  lemma MetaInsertedOnce<T>(args: seq<T>, mark: T, token: T)
    ensures var out := InsertBefore(args, mark, token);
      var k := Find(args, mark);
      && out[k] == token
      && out[..k] + out[k + 1..] == args
      && multiset(out) == multiset(args) + multiset{token}
      && (forall j :: 0 <= j < k ==> args[j] != mark)
      && (if k < |args| then out[k + 1] == mark else out == args + [token])
  {
    hide Find;
    var k := Find(args, mark);
    InsertedAt(args, k, token);
  }

  lemma InsertedAt<T>(args: seq<T>, k: nat, token: T)
    requires k <= |args|
    ensures var out := args[..k] + [token] + args[k..];
      && out[k] == token
      && out[..k] + out[k + 1..] == args
      && multiset(out) == multiset(args) + multiset{token}
      && (if k < |args| then out[k + 1] == args[k] else out == args + [token])
  {
    var a, b := args[..k], args[k..];
    assert args == a + b;
    SplitAround(a, token, b);
    if k == |args| {
      assert a == args && b == [];
      assert a + [token] + b == args + [token];
    }
  }

  lemma InsertAfterOptions<T>(options: seq<T>, mark: T, rest: seq<T>, token: T)
    requires mark !in options
    ensures InsertBefore(options + ([mark] + rest), mark, token) == options + [token] + ([mark] + rest)
  {
    var s := options + ([mark] + rest);
    assert forall j :: 0 <= j < |options| ==> s[j] == options[j] && options[j] in options;
    assert s[|options|] == mark;
    assert Find(s, mark) == |options|;
    assert s[..|options|] == options && s[|options|..] == [mark] + rest;
  }

  lemma MetaBeforeMark(bin: string, options: seq<string>, program: seq<string>, token: string)
    requires RUN_MARK !in options
    ensures CommandLine(bin, options + [RUN_MARK, "--"] + program, token)
         == [bin] + options + [token] + [RUN_MARK, "--"] + program
  {
    InsertAfterOptions(options, RUN_MARK, ["--"] + program, token);
    assert options + [RUN_MARK, "--"] + program == options + ([RUN_MARK] + (["--"] + program));
  }

  /** Whatever the language and the limits, isolate sees its own options, then the meta
      option, then `--run --`, and after that the program and its arguments unchanged. */
  lemma CommandsKeepOrder(
    bin: string, lang: Language, id: int, timeLimitMs: int, memoryLimitKb: int, className: string, meta: string)
    ensures CommandLine(bin, CompileArgs(lang, id, className), MetaOption(id, meta))
         == [bin] + Render(CompileSwitches(lang, id)) + [MetaOption(id, meta)] + [RUN_MARK, "--"]
            + CompileProgram(lang, className)
    ensures CommandLine(bin, RunArgs(lang, id, timeLimitMs, memoryLimitKb, className), MetaOption(id, meta))
         == [bin] + Render(RunSwitches(lang, id, timeLimitMs, memoryLimitKb)) + [MetaOption(id, meta)]
            + [RUN_MARK, "--"] + RunProgram(lang, className)
  {
    hide CompileSwitches, CompileProgram, RunSwitches, RunProgram, MetaOption, Render;
    assert '=' !in RUN_MARK;
    RenderHasNoMark(CompileSwitches(lang, id), RUN_MARK);
    RenderHasNoMark(RunSwitches(lang, id, timeLimitMs, memoryLimitKb), RUN_MARK);
    MetaBeforeMark(bin, Render(CompileSwitches(lang, id)), CompileProgram(lang, className), MetaOption(id, meta));
    MetaBeforeMark(bin, Render(RunSwitches(lang, id, timeLimitMs, memoryLimitKb)), RunProgram(lang, className),
                   MetaOption(id, meta));
  }

  /** The file that the run command executes. */
  function Artefact(lang: Language, className: string): string {
    match lang
    case Cpp | Go => "solution"
    case Java => className + ".class"
    case Python => "solution.py"
    case Unsupported => ""
  }

  // ---------- the files of a job ----------

  function JobClass(job: Job): string {
    ClassOf(LanguageOf(job.language), job.code)
  }

  function SourceName(job: Job): string {
    SourceFile(LanguageOf(job.language), JobClass(job))
  }

  /** The file that the runs of a job execute. */
  function Target(job: Job): string {
    Artefact(LanguageOf(job.language), JobClass(job))
  }

  function CompileCommand(m: Machine, id: int, job: Job): seq<string> {
    CommandLine(m.bin, CompileArgs(LanguageOf(job.language), id, JobClass(job)), MetaOption(id, COMPILE_META))
  }

  function RunCommand(m: Machine, id: int, job: Job): seq<string> {
    CommandLine(m.bin,
                RunArgs(LanguageOf(job.language), id, job.timeLimitMs, job.memoryLimitKb, JobClass(job)),
                MetaOption(id, RUN_META))
  }

  /** The files that the sandbox itself writes and reads besides the source. */
  const OWN_FILES := {COMPILE_META, RUN_META, INPUT, OUTPUT, ERRORS}

  lemma NamesApart(lang: Language, className: string)
    ensures Artefact(lang, className) !in OWN_FILES && SourceFile(lang, className) !in OWN_FILES
  {
    var a, s := Artefact(lang, className), SourceFile(lang, className);
    if lang != Unsupported {
      assert a[|a| - 1] in {'n', 's', 'y'};
      assert s[|s| - 1] in {'p', 'a', 'y', 'o'};
    }
    forall name | name in OWN_FILES ensures name != "" && name[|name| - 1] == 't' {
    }
  }

  lemma SourceIsNotProgram(lang: Language, className: string)
    requires lang != Unsupported && lang != Python
    ensures Artefact(lang, className) != SourceFile(lang, className)
  {
    var a, s := Artefact(lang, className), SourceFile(lang, className);
    assert a[|a| - 1] in {'n', 's'};
    assert s[|s| - 1] in {'p', 'a', 'o'};
  }

  lemma TargetApart(job: Job)
    ensures Target(job) !in OWN_FILES && SourceName(job) !in OWN_FILES
    ensures LanguageOf(job.language) != Unsupported && LanguageOf(job.language) != Python ==>
              Target(job) != SourceName(job)
  {
    var lang := LanguageOf(job.language);
    NamesApart(lang, JobClass(job));
    if lang != Unsupported && lang != Python {
      SourceIsNotProgram(lang, JobClass(job));
    }
    hide LanguageOf, JobClass, Artefact, SourceFile;
  }

  // ---------- failures of the sandbox itself ----------

  /** Preparing a compilation succeeds exactly when the language is supported, the Go directories
      can be made and the source file can be opened, each in the box as it is then; a failure
      is not taken for a good compilation. */
  lemma PreparingFailsIff(m: Machine, id: int, box: Box, job: Job)
    ensures var (failure, box') := PrepareCompile(m, id, box, job.language, job.code);
      var dir := "/var/local/lib/isolate/" + ToString(id) + "/box/";
      var after := (k: nat) => Box(box.files, box.calls + k);
      && (failure.None? <==>
            match LanguageOf(job.language)
            case Unsupported => false
            case Go =>
              && m.makesDir(box, dir + "tmp") && m.makesDir(after(1), dir + "tmp/go-cache")
              && m.opens(after(2), dir + SourceName(job))
            case _ => m.opens(box, dir + SourceName(job)))
      && (failure.Some? ==> IsFailure(failure.value) && box'.files == box.files)
      && (failure.None? ==> box'.files == box.files[SourceName(job) := job.code])
  {
    hide LanguageOf, ClassOf, SourceFile, ToString;
    assert SourceName(job) == SourceFile(LanguageOf(job.language), ClassOf(LanguageOf(job.language), job.code));
  }

  /** Preparing a run succeeds exactly when the input file can be opened and the language is
      supported. */
  lemma FeedingFailsIff(m: Machine, id: int, box: Box, job: Job, input: string)
    ensures var (failure, box') := PrepareRun(m, id, box, Request(job, input));
      var dir := "/var/local/lib/isolate/" + ToString(id) + "/box/";
      && (failure.None? <==> m.opens(box, dir + "input.txt") && LanguageOf(job.language) != Unsupported)
      && (failure.Some? ==> IsFailure(failure.value))
      && box'.files == if m.opens(box, dir + "input.txt") then box.files["input.txt" := input] else box.files
  {
    hide LanguageOf, ClassOf, ToString;
  }

  /** A result that no check takes for a success. */
  predicate IsFailure(r: SandboxResult) {
    r.exitCode == -1 && r.status == "XX" && !r.timedOut && r.stderr != "" && r.memoryKb == 0
  }

  /** A shell call that cannot be made, or leaves no meta file, is a failure too; otherwise the
      texts come from the files that the command names. */
  lemma ReadingBack(m: Machine, id: int, box: Box, ran: bool, meta: string)
    ensures var r := ReadBack(m, id, box, ran, meta);
      && (!ran ==> r.Returned? && IsFailure(r.value))
      && (ran && meta !in box.files ==> r.Returned? && r.value.exitCode == -1 && r.value.status == "XX")
      && (ran && r.Returned? ==>
            && r.value.stdout == (if "output.txt" in box.files then box.files["output.txt"] else "")
            && r.value.stderr == (if "error.txt" in box.files then box.files["error.txt"] else ""))
  {
    hide ReadEntries, Entries, Lines, BoxPath;
  }

  // ---------- how a command reads ----------

  /** The program that a command executes, with its arguments. */
  function ProgramOf(cmd: seq<string>): seq<string> {
    if cmd == [] then []
    else
      var args := cmd[1..];
      var k := Find(args, "--run");
      if k + 2 <= |args| && args[k + 1] == "--" then args[k + 2..] else []
  }

  /** Different boxes have different directories. */
  lemma DirectoriesApart(a: int, b: int)
    ensures BoxPath(a) == BoxPath(b) <==> a == b
  {
    ToStringReads(a);
    ToStringReads(b);
    hide ToString, NumberOf;
    var start, end := "/var/local/lib/isolate/", "/box/";
    assert BoxPath(a) == start + ToString(a) + end && BoxPath(b) == start + ToString(b) + end;
    MiddleOf(start, ToString(a), end);
    MiddleOf(start, ToString(b), end);
  }

  lemma MiddleOf(start: string, middle: string, end: string)
    ensures var s := start + middle + end;
      |s| >= |start| + |end| && s[|start|..|s| - |end|] == middle
  {
  }

  lemma CommandForm(bin: string, options: Options, id: int, meta: string, program: seq<string>)
    ensures [bin] + Render(options) + [MetaOption(id, meta)] + [RUN_MARK, "--"] + program
         == [bin] + (Render(options + [(MetaFile, BoxPath(id) + meta)]) + ([RUN_MARK, "--"] + program))
  {
    hide BoxPath, Render;
    var last: Options := [(MetaFile, BoxPath(id) + meta)];
    RenderJoins(options, last);
    assert Render(last) == [MetaOption(id, meta)];
  }

  lemma MarksAreBare(program: seq<string>)
    requires forall j :: 0 <= j < |program| ==> IsBare(program[j])
    ensures forall j :: 0 <= j < |[RUN_MARK, "--"] + program| ==> IsBare(([RUN_MARK, "--"] + program)[j])
  {
    assert IsBare(RUN_MARK) && IsBare("--");
    hide IsBare;
  }

  /** A name that does not look like an option. */
  predicate IsPlainName(name: string) {
    name != "" && name[0] != '-'
  }

  lemma ClassIsPlain(job: Job)
    ensures IsPlainName(JobClass(job))
  {
    ClassNameIsIdentifier(job.code);
    hide LanguageOf, JavaClassName;
  }

  /** A token that isolate cannot take for one of its own options. */
  predicate StartsPlain(token: string) {
    |token| > 0 && (token[0] != '-' || (|token| > 1 && token[1] != '-'))
  }

  lemma ProgramsStartPlain(lang: Language, className: string)
    requires IsPlainName(className)
    ensures forall j :: 0 <= j < |CompileProgram(lang, className)| ==> StartsPlain(CompileProgram(lang, className)[j])
  {
  }

  lemma RunProgramsStartPlain(lang: Language, className: string)
    requires IsPlainName(className)
    ensures forall j :: 0 <= j < |RunProgram(lang, className)| ==> StartsPlain(RunProgram(lang, className)[j])
  {
  }

  lemma PlainIsBare(program: seq<string>)
    requires forall j :: 0 <= j < |program| ==> StartsPlain(program[j])
    ensures forall j :: 0 <= j < |program| ==> IsBare(program[j])
  {
  }

  /** The compiler is called on `source`, last in its arguments, and makes `target`. */
  ghost predicate Compiles(program: seq<string>, lang: Language, source: string, target: string) {
    && 4 <= |program| && program[|program| - 1] == source
    && match lang
       case Cpp => program[0] == "/usr/bin/g++" && program[|program| - 3..] == ["-o", target, "solution.cpp"]
       case Java => program[0] == "/usr/bin/javac" && 5 <= |source| && source[|source| - 5..] == ".java"
                    && target == source[..|source| - 5] + ".class"
       case Python => program == ["/usr/bin/python3", "-m", "py_compile", target]
       case Go => program == ["/usr/bin/env", "go", "build", "-o", target, "main.go"]
       case Unsupported => false
  }

  /** What is executed is `target`, in the directory of the box. */
  ghost predicate Executes(program: seq<string>, lang: Language, target: string) {
    match lang
    case Cpp | Go => program == ["./" + target]
    case Java =>
      && 4 <= |program| && program[0] == "/usr/bin/java" && program[|program| - 3..|program| - 1] == ["-cp", "."]
      && program[|program| - 1] + ".class" == target
    case Python => program == ["/usr/bin/python3", target]
    case Unsupported => false
  }

  lemma ProgramCompiles(lang: Language, className: string)
    requires lang != Unsupported
    ensures Compiles(CompileProgram(lang, className), lang, SourceFile(lang, className), Artefact(lang, className))
  {
    if lang == Java {
      assert |CompileProgram(lang, className)| == 12;
      assert (className + ".java")[|className|..] == ".java" && (className + ".java")[..|className|] == className;
    }
  }

  lemma ProgramExecutes(lang: Language, className: string)
    requires lang != Unsupported
    ensures Executes(RunProgram(lang, className), lang, Artefact(lang, className))
  {
    assert "./" + "solution" == "./solution";
    if lang == Java {
      assert |RunProgram(lang, className)| == 14;
    }
  }

  /** The compile command as isolate reads it: it names the box of the call and no other, its
      meta file is in the directory of that box, its messages go to the file that is read
      afterwards, the limits are those of the language, and the compiler makes the file that
      the runs execute out of the source file that was written. */
  lemma CompileCommandSays(m: Machine, id: int, job: Job)
    requires LanguageOf(job.language) != Unsupported
    ensures var lang, cmd := LanguageOf(job.language), CompileCommand(m, id, job);
      && cmd != [] && BoxNamed(cmd) == Some(id)
      && TellsNumber(cmd[1..], "box-id", id)
      && Tells(cmd[1..], "meta", BoxPath(id) + COMPILE_META)
      && Tells(cmd[1..], "stderr", ERRORS)
      && TellsNumber(cmd[1..], "processes", if lang == Java then 256 else if lang == Python then 20 else 50)
      && TellsNumber(cmd[1..], "wall-time", if lang == Python then 10 else 30)
      && (if lang == Java then TellsNumber(cmd[1..], "mem", 2097152) else Silent(cmd[1..], "mem"))
      && Compiles(ProgramOf(cmd), lang, SourceName(job), Target(job))
  {
    ProgramCompiles(LanguageOf(job.language), JobClass(job));
    ClassIsPlain(job);
    CompileTokens(m.bin, LanguageOf(job.language), id, JobClass(job));
    hide LanguageOf, JobClass, CompileSwitches, CompileProgram, CompileCommand, Render, IsBare, Tells, NumberOf,
      BoxPath, BoxNamed, ProgramOf, Compiles, Silent, Artefact, SourceFile;
    var lang, path := LanguageOf(job.language), BoxPath(id) + COMPILE_META;
    var program := CompileProgram(lang, JobClass(job));
    CompileTold(lang, id, path, [RUN_MARK, "--"] + program);
    CommandReads(m.bin, CompileSwitches(lang, id) + [(MetaFile, path)], program, id);
  }

  lemma CompileTokens(bin: string, lang: Language, id: int, cls: string)
    requires lang != Unsupported && IsPlainName(cls)
    ensures var tail := [RUN_MARK, "--"] + CompileProgram(lang, cls);
      && (forall j :: 0 <= j < |tail| ==> IsBare(tail[j]))
      && CommandLine(bin, CompileArgs(lang, id, cls), MetaOption(id, COMPILE_META)) ==
         [bin] + (Render(CompileSwitches(lang, id) + [(MetaFile, BoxPath(id) + COMPILE_META)]) + tail)
  {
    hide CompileSwitches, CompileProgram, CompileArgs, RunSwitches, RunArgs, RunProgram, CommandLine, MetaOption,
      Render, IsBare, StartsPlain, BoxPath;
    ProgramsStartPlain(lang, cls);
    PlainIsBare(CompileProgram(lang, cls));
    MarksAreBare(CompileProgram(lang, cls));
    CommandsKeepOrder(bin, lang, id, 0, 0, cls, COMPILE_META);
    CommandForm(bin, CompileSwitches(lang, id), id, COMPILE_META, CompileProgram(lang, cls));
  }

  /** Whatever the class name, the command is for the box of the sandbox. */
  lemma CompileNamesBox(bin: string, lang: Language, id: int, cls: string)
    requires lang != Unsupported && IsPlainName(cls)
    ensures BoxNamed(CommandLine(bin, CompileArgs(lang, id, cls), MetaOption(id, COMPILE_META))) == Some(id)
  {
    CompileTokens(bin, lang, id, cls);
    hide CompileSwitches, CompileProgram, CompileArgs, CommandLine, MetaOption, Render, IsBare, Tells, NumberOf,
      BoxPath, BoxNamed, ProgramOf, Silent;
    var path := BoxPath(id) + COMPILE_META;
    CompileTold(lang, id, path, [RUN_MARK, "--"] + CompileProgram(lang, cls));
    CommandReads(bin, CompileSwitches(lang, id) + [(MetaFile, path)], CompileProgram(lang, cls), id);
  }

  /** The run command as isolate reads it: it names the box of the call and no other, its files
      are the input that was written and the files that are read afterwards, its limits follow
      from those of the submission, and what it executes is the program of the call. */
  lemma RunCommandSays(m: Machine, id: int, job: Job)
    requires LanguageOf(job.language) != Unsupported
    ensures var lang, cmd := LanguageOf(job.language), RunCommand(m, id, job);
      && cmd != [] && BoxNamed(cmd) == Some(id)
      && TellsNumber(cmd[1..], "box-id", id)
      && Tells(cmd[1..], "meta", BoxPath(id) + RUN_META)
      && Tells(cmd[1..], "stdin", INPUT) && Tells(cmd[1..], "stdout", OUTPUT) && Tells(cmd[1..], "stderr", ERRORS)
      && TellsNumber(cmd[1..], "processes", if lang == Cpp then 1 else if lang == Java then 256 else 64)
      && TellsNumber(
           cmd[1..], "mem", if lang == Java && job.memoryLimitKb < 2097152 then 2097152 else job.memoryLimitKb)
      && TellsMicros(cmd[1..], "wall-time", 1000 * if 2 * job.timeLimitMs < 5000 then 5000 else 2 * job.timeLimitMs)
      && Executes(ProgramOf(cmd), lang, Target(job))
  {
    ProgramExecutes(LanguageOf(job.language), JobClass(job));
    ClassIsPlain(job);
    RunTokens(m.bin, LanguageOf(job.language), id, job.timeLimitMs, job.memoryLimitKb, JobClass(job));
    hide LanguageOf, JobClass, RunSwitches, RunProgram, RunCommand, Render, IsBare, Tells, NumberOf, BoxPath, BoxNamed,
      ProgramOf, Executes, Artefact, MicrosOf;
    var lang, path := LanguageOf(job.language), BoxPath(id) + RUN_META;
    var options := RunSwitches(lang, id, job.timeLimitMs, job.memoryLimitKb);
    var program := RunProgram(lang, JobClass(job));
    RunTold(lang, id, job.timeLimitMs, job.memoryLimitKb, path, [RUN_MARK, "--"] + program);
    CommandReads(m.bin, options + [(MetaFile, path)], program, id);
  }

  lemma RunTokens(bin: string, lang: Language, id: int, timeLimitMs: int, memoryLimitKb: int, cls: string)
    requires IsPlainName(cls)
    ensures var options := RunSwitches(lang, id, timeLimitMs, memoryLimitKb);
      var tail := [RUN_MARK, "--"] + RunProgram(lang, cls);
      && (forall j :: 0 <= j < |tail| ==> IsBare(tail[j]))
      && CommandLine(bin, RunArgs(lang, id, timeLimitMs, memoryLimitKb, cls), MetaOption(id, RUN_META)) ==
         [bin] + (Render(options + [(MetaFile, BoxPath(id) + RUN_META)]) + tail)
  {
    hide CompileSwitches, CompileProgram, CompileArgs, RunSwitches, RunArgs, RunProgram, CommandLine, MetaOption,
      Render, IsBare, StartsPlain, BoxPath;
    RunProgramsStartPlain(lang, cls);
    PlainIsBare(RunProgram(lang, cls));
    MarksAreBare(RunProgram(lang, cls));
    CommandsKeepOrder(bin, lang, id, timeLimitMs, memoryLimitKb, cls, RUN_META);
    CommandForm(bin, RunSwitches(lang, id, timeLimitMs, memoryLimitKb), id, RUN_META, RunProgram(lang, cls));
  }

  lemma RunNamesBox(bin: string, lang: Language, id: int, timeLimitMs: int, memoryLimitKb: int, cls: string)
    requires lang != Unsupported && IsPlainName(cls)
    ensures BoxNamed(CommandLine(bin, RunArgs(lang, id, timeLimitMs, memoryLimitKb, cls), MetaOption(id, RUN_META)))
         == Some(id)
  {
    RunTokens(bin, lang, id, timeLimitMs, memoryLimitKb, cls);
    hide RunSwitches, RunProgram, RunArgs, CommandLine, MetaOption, Render, IsBare, Tells, NumberOf, BoxPath, BoxNamed,
      ProgramOf, MicrosOf;
    var path, options := BoxPath(id) + RUN_META, RunSwitches(lang, id, timeLimitMs, memoryLimitKb);
    RunTold(lang, id, timeLimitMs, memoryLimitKb, path, [RUN_MARK, "--"] + RunProgram(lang, cls));
    CommandReads(bin, options + [(MetaFile, path)], RunProgram(lang, cls), id);
  }

  lemma CompilerIsInvoked(m: Machine, box: Box, id: int, job: Job)
    ensures InvokeCompiler(m, id, box, job.language, job.code) == IsolateIn(m, box, CompileCommand(m, id, job))
  {
    hide LanguageOf, ClassOf, CommandLine, CompileArgs, MetaOption, IsolateIn;
  }

  lemma ProgramIsInvoked(m: Machine, box: Box, id: int, job: Job, input: string)
    ensures InvokeProgram(m, id, box, Request(job, input)) == IsolateIn(m, box, RunCommand(m, id, job))
  {
    hide LanguageOf, ClassOf, CommandLine, RunArgs, MetaOption, IsolateIn;
  }

  /** What a call of isolate does on a host with many boxes: it works in the box of the call. */
  lemma CompilingHitsOwnBox(m: Machine, boxes: map<int, Box>, id: int, job: Job)
    requires LanguageOf(job.language) != Unsupported && id in boxes
    ensures BoxNamed(CompileCommand(m, id, job)) == Some(id)
    ensures var (ran, box) := InvokeCompiler(m, id, boxes[id], job.language, job.code);
      IsolateAll(m, boxes, CompileCommand(m, id, job)) == (ran, boxes[id := box])
  {
    CompilerIsInvoked(m, boxes[id], id, job);
    CompileNamesOwnBox(m, id, job);
    hide LanguageOf, InvokeCompiler, IsolateIn, CompileCommand, BoxNamed;
  }

  lemma CompileNamesOwnBox(m: Machine, id: int, job: Job)
    requires LanguageOf(job.language) != Unsupported
    ensures BoxNamed(CompileCommand(m, id, job)) == Some(id)
  {
    CompileCommandSays(m, id, job);
    hide *;
  }

  lemma RunningHitsOwnBox(m: Machine, boxes: map<int, Box>, id: int, job: Job, input: string)
    requires LanguageOf(job.language) != Unsupported && id in boxes
    ensures BoxNamed(RunCommand(m, id, job)) == Some(id)
    ensures var (ran, box) := InvokeProgram(m, id, boxes[id], Request(job, input));
      IsolateAll(m, boxes, RunCommand(m, id, job)) == (ran, boxes[id := box])
  {
    ProgramIsInvoked(m, boxes[id], id, job, input);
    RunNamesOwnBox(m, id, job);
    hide LanguageOf, InvokeProgram, IsolateIn, RunCommand, BoxNamed, Request;
  }

  lemma RunNamesOwnBox(m: Machine, id: int, job: Job)
    requires LanguageOf(job.language) != Unsupported
    ensures BoxNamed(RunCommand(m, id, job)) == Some(id)
  {
    RunCommandSays(m, id, job);
    hide *;
  }

  lemma MarkFound(options: Options, program: seq<string>)
    ensures var args := Render(options) + ([RUN_MARK, "--"] + program);
      var k := |options|;
      Find(args, "--run") == k && args[k + 1] == "--" && args[k + 2..] == program
  {
    assert '=' !in RUN_MARK;
    RenderHasNoMark(options, RUN_MARK);
    hide Render;
    var args := Render(options) + ([RUN_MARK, "--"] + program);
    assert args[|options|] == RUN_MARK;
    assert forall j :: 0 <= j < |options| ==> args[j] == Render(options)[j];
  }

  lemma CommandReads(bin: string, options: Options, program: seq<string>, id: int)
    requires TellsNumber(Render(options) + ([RUN_MARK, "--"] + program), "box-id", id)
    ensures var cmd := [bin] + (Render(options) + ([RUN_MARK, "--"] + program));
      && cmd[1..] == Render(options) + ([RUN_MARK, "--"] + program)
      && BoxNamed(cmd) == Some(id) && ProgramOf(cmd) == program
  {
    hide Render, TellsNumber, BoxNamed, ProgramOf;
    var tokens := Render(options) + ([RUN_MARK, "--"] + program);
    RestOfCommand(bin, tokens);
    BoxIsRead(bin, tokens, id);
    ProgramIsRead(bin, options, program);
  }

  lemma RestOfCommand(bin: string, tokens: seq<string>)
    ensures [bin] + tokens != [] && ([bin] + tokens)[1..] == tokens
  {
  }

  lemma BoxIsRead(bin: string, tokens: seq<string>, id: int)
    requires TellsNumber(tokens, "box-id", id)
    ensures BoxNamed([bin] + tokens) == Some(id)
  {
    hide NumberOf, TellsAt, ReadSwitch;
    RestOfCommand(bin, tokens);
    var value :| Tells(tokens, "box-id", value) && NumberOf(value) == Some(id);
    var k :| TellsAt(tokens, "box-id", value, k);
    TellsReads(tokens, "box-id", value, k);
  }

  lemma ProgramIsRead(bin: string, options: Options, program: seq<string>)
    ensures ProgramOf([bin] + (Render(options) + ([RUN_MARK, "--"] + program))) == program
  {
    hide Render, Find;
    RestOfCommand(bin, Render(options) + ([RUN_MARK, "--"] + program));
    MarkFound(options, program);
  }

  /** Every run of a call names the class whose source file the compilation of that call
      wrote and compiled. */
  lemma RunsCompiledClass(m: Machine, id: int, box: Box, job: Job, input: string)
    requires LanguageOf(job.language) == Java
    requires PrepareCompile(m, id, box, job.language, job.code).0.None?
    ensures var className := Request(job, input).className;
      var compile := CompileArgs(Java, id, className);
      var run := RunArgs(Java, id, job.timeLimitMs, job.memoryLimitKb, className);
      && className == JavaClassName(job.code)
      && PrepareCompile(m, id, box, job.language, job.code).1.files == box.files[className + ".java" := job.code]
      && compile[|compile| - 1] == className + ".java"
      && run[|run| - 1] == className
  {
    hide LanguageOf, JavaClassName, BoxPath, SandboxFailure, CompileSwitches, RunSwitches, Render;
    assert |CompileProgram(Java, JavaClassName(job.code))| == 12;
    assert |RunProgram(Java, JavaClassName(job.code))| == 14;
  }
}
