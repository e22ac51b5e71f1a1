/** Languages, the Java class name, and the command lines given to isolate. */
module Commands {
  import opened Base
  import opened Switches

  // ---------- languages ----------

  datatype Language = Cpp | Java | Python | Go | Unsupported

  function LowerChar(c: char): char {
    if 'A' <= c <= 'Z' then c - 'A' + 'a' else c
  }

  function Lower(s: string): string {
    if s == "" then "" else [LowerChar(s[0])] + Lower(s[1..])
  }

  /** `normalize_language`. */
  function NormalizeLanguage(language: string): string {
    var normalized := Lower(language);
    if normalized == "c++" then "cpp"
    else if normalized == "py" then "python"
    else normalized
  }

  /** The branch that `compile` and `run` take for a language name. */
  function LanguageOf(language: string): Language {
    var normalized := NormalizeLanguage(language);
    if normalized == "cpp" then Cpp
    else if normalized == "java" then Java
    else if normalized == "python" then Python
    else if normalized == "go" then Go
    else Unsupported
  }

  /** Equal up to the case of the letters of `s`. */
  predicate ReadsAs(s: string, word: string) {
    && |s| == |word|
    && forall i :: 0 <= i < |s| ==> s[i] == word[i] || ('A' <= s[i] <= 'Z' && s[i] as int + 32 == word[i] as int)
  }

  lemma {:induction false} LowerAt(s: string)
    ensures |Lower(s)| == |s| && forall i :: 0 <= i < |s| ==> Lower(s)[i] == LowerChar(s[i])
  {
    if s != "" {
      LowerAt(s[1..]);
    }
  }

  lemma LowerReads(s: string, word: string)
    requires forall i :: 0 <= i < |word| ==> !('A' <= word[i] <= 'Z')
    ensures Lower(s) == word <==> ReadsAs(s, word)
  {
    LowerAt(s);
    hide Lower;
    if Lower(s) == word {
      assert forall i :: 0 <= i < |s| ==> Lower(s)[i] == word[i];
    }
    if ReadsAs(s, word) {
      forall i | 0 <= i < |s| ensures Lower(s)[i] == word[i] {
        assert s[i] == word[i] || ('A' <= s[i] <= 'Z' && s[i] as int + 32 == word[i] as int);
      }
    }
  }

  /** The names of the languages, in any mixture of cases; no other text names one. */
  lemma LanguagesByName(language: string)
    ensures LanguageOf(language) == Cpp <==> ReadsAs(language, "cpp") || ReadsAs(language, "c++")
    ensures LanguageOf(language) == Java <==> ReadsAs(language, "java")
    ensures LanguageOf(language) == Python <==> ReadsAs(language, "python") || ReadsAs(language, "py")
    ensures LanguageOf(language) == Go <==> ReadsAs(language, "go")
  {
    hide Lower, ReadsAs;
    LowerReads(language, "cpp");
    LowerReads(language, "c++");
    LowerReads(language, "java");
    LowerReads(language, "python");
    LowerReads(language, "py");
    LowerReads(language, "go");
  }

  // ---------- the Java class name ----------

  const MARKER := "public class "

  predicate IsSpace(c: char) {
    c == ' ' || '\t' <= c <= '\r'
  }

  predicate IsIdentifierChar(c: char) {
    'a' <= c <= 'z' || 'A' <= c <= 'Z' || '0' <= c <= '9' || c == '_'
  }

  predicate OccursAt(s: string, pattern: string, k: int): (occurs: bool)
    ensures occurs ==> 0 <= k && k + |pattern| <= |s|
  {
    0 <= k && k + |pattern| <= |s| && s[k..k + |pattern|] == pattern
  }

  /** The first occurrence of `pattern` at or after `from`, or -1. */
  function FindPattern(s: string, pattern: string, from: nat): (k: int)
    ensures k < 0 ==> k == -1 && forall j :: from <= j ==> !OccursAt(s, pattern, j)
    ensures 0 <= k ==> from <= k && OccursAt(s, pattern, k)
    ensures 0 <= k ==> forall j :: from <= j < k ==> !OccursAt(s, pattern, j)
    decreases |s| - from
  {
    if from + |pattern| > |s| then -1
    else if OccursAt(s, pattern, from) then from
    else if from == |s| then -1
    else FindPattern(s, pattern, from + 1)
  }

  function SkipSpaces(s: string, pos: nat): (q: nat)
    requires pos <= |s|
    ensures pos <= q <= |s|
    ensures forall j :: pos <= j < q ==> IsSpace(s[j])
    ensures q < |s| ==> !IsSpace(s[q])
    decreases |s| - pos
  {
    if pos < |s| && IsSpace(s[pos]) then SkipSpaces(s, pos + 1) else pos
  }

  function IdentifierEnd(s: string, pos: nat): (e: nat)
    requires pos <= |s|
    ensures pos <= e <= |s|
    ensures forall j :: pos <= j < e ==> IsIdentifierChar(s[j])
    ensures e < |s| ==> !IsIdentifierChar(s[e])
    decreases |s| - pos
  {
    if pos < |s| && IsIdentifierChar(s[pos]) then IdentifierEnd(s, pos + 1) else pos
  }

  function JavaClassName(source: string): string {
    var p := FindPattern(source, MARKER, 0);
    if p < 0 then "Main"
    else
      var q := SkipSpaces(source, p + |MARKER|);
      var e := IdentifierEnd(source, q);
      if q == e then "Main" else source[q..e]
  }

  /** `java_class_name`: two loops that advance a position. */
  method ReadJavaClassName(source: string) returns (name: string)
    ensures name == JavaClassName(source)
  {
    hide FindPattern, IsIdentifierChar, IsSpace;
    var pos := FindPattern(source, MARKER, 0);
    if pos >= 0 {
      assert OccursAt(source, MARKER, pos);
      pos := pos + |MARKER|;
      ghost var start := pos;
      while pos < |source| && IsSpace(source[pos])
        invariant start <= pos <= |source|
        invariant SkipSpaces(source, pos) == SkipSpaces(source, start)
      {
        pos := pos + 1;
      }
      var className := "";
      ghost var q := pos;
      while pos < |source| && IsIdentifierChar(source[pos])
        invariant q <= pos <= |source|
        invariant className == source[q..pos]
        invariant IdentifierEnd(source, pos) == IdentifierEnd(source, q)
      {
        className := className + [source[pos]];
        pos := pos + 1;
      }
      if className != "" {
        return className;
      }
    }
    return "Main";
  }

  /** The class name as a property of the text: `[q, e)` is the maximal run of identifier
      characters after the first marker and the white space that follows it. */
  ghost predicate IsClassNameRun(source: string, p: int, q: int, e: int) {
    && OccursAt(source, "public class ", p)
    && (forall j :: 0 <= j < p ==> !OccursAt(source, "public class ", j))
    && p + 13 <= q <= e <= |source|
    && (forall j :: p + 13 <= j < q ==> IsSpace(source[j]))
    && (q < |source| ==> !IsSpace(source[q]))
    && (forall j :: q <= j < e ==> IsIdentifierChar(source[j]))
    && (e < |source| ==> !IsIdentifierChar(source[e]))
  }

  ghost predicate IsClassName(source: string, name: string) {
    || (name == "Main" && forall j :: 0 <= j ==> !OccursAt(source, "public class ", j))
    || exists p, q, e :: IsClassNameRun(source, p, q, e) && name == if q == e then "Main" else source[q..e]
  }

  lemma ClassNameRunUnique(source: string, p: int, q: int, e: int, p': int, q': int, e': int)
    requires IsClassNameRun(source, p, q, e) && IsClassNameRun(source, p', q', e')
    ensures p == p' && q == q' && e == e'
  {
    hide OccursAt, IsSpace, IsIdentifierChar;
    assert p == p';
    assert q == q';
  }

  /** Where the code finds the name. */
  lemma FoundRun(source: string, p: nat)
    requires p == FindPattern(source, MARKER, 0)
    ensures p + |MARKER| <= |source|
    ensures var q := SkipSpaces(source, p + |MARKER|);
      IsClassNameRun(source, p, q, IdentifierEnd(source, q))
  {
    hide OccursAt, IsSpace, IsIdentifierChar;
  }

  lemma ClassNameIsIdentifier(source: string)
    ensures JavaClassName(source) != ""
    ensures forall j :: 0 <= j < |JavaClassName(source)| ==> IsIdentifierChar(JavaClassName(source)[j])
  {
    hide OccursAt, IsSpace, FindPattern, SkipSpaces;
  }

  /** The characters of the "C" locale that the scanning goes by. */
  lemma CharacterClasses(c: char)
    ensures IsSpace(c) <==> c in {' ', '\t', '\n', 11 as char, 12 as char, '\r'}
    ensures IsIdentifierChar(c) <==> c == '_' || DigitOf(c).Some? || 'a' <= LowerChar(c) <= 'z'
  {
  }

  /** Every source text has exactly one class name, the one the code computes; it is not
      empty and made of identifier characters only. */
  lemma ClassNameCharacterised(source: string, name: string)
    ensures IsClassName(source, name) <==> name == JavaClassName(source)
    ensures JavaClassName(source) != ""
    ensures forall j :: 0 <= j < |JavaClassName(source)| ==> IsIdentifierChar(JavaClassName(source)[j])
  {
    hide OccursAt, IsSpace, FindPattern, SkipSpaces, IdentifierEnd, IsIdentifierChar;
    ClassNameIsIdentifier(source);
    var p := FindPattern(source, MARKER, 0);
    if p >= 0 {
      FoundRun(source, p);
      var q := SkipSpaces(source, p + |MARKER|);
      var e := IdentifierEnd(source, q);
      if IsClassName(source, name) {
        var p', q', e' :| IsClassNameRun(source, p', q', e') && name == if q' == e' then "Main" else source[q'..e'];
        ClassNameRunUnique(source, p, q, e, p', q', e');
      }
    }
  }

  // ---------- argument lists ----------

  const JAVA_DIRS: Options := [
    (Directory, "/etc/alternatives"), (Directory, "/etc/java-17-openjdk"), (Directory, "/usr/lib/jvm")]
  const RUN_MARK := "--run"

  function SourceFile(lang: Language, className: string): string {
    match lang
    case Cpp => "solution.cpp"
    case Java => className + ".java"
    case Python => "solution.py"
    case Go => "main.go"
    case Unsupported => ""
  }

  /** Isolate's own options of a compilation. */
  function CompileSwitches(lang: Language, id: int): Options {
    match lang
    case Cpp =>
      [(BoxId, ToString(id)), (Environment, "PATH=/usr/bin:/bin"), (Processes, "50"), (WallLimit, "30"),
       (Stderr, "error.txt")]
    case Java =>
      [(BoxId, ToString(id)), (Environment, "PATH=/usr/bin:/bin")] + JAVA_DIRS +
      [(Processes, "256"), (Memory, "2097152"), (WallLimit, "30"), (Stderr, "error.txt")]
    case Python =>
      [(BoxId, ToString(id)), (Environment, "PATH=/usr/bin:/bin"), (Processes, "20"), (WallLimit, "10"),
       (Stderr, "error.txt")]
    case Go =>
      [(BoxId, ToString(id)), (Environment, "PATH=/usr/local/go/bin:/usr/bin:/bin"),
       (Environment, "GOCACHE=/tmp/go-cache"), (Processes, "50"), (WallLimit, "30"), (Stderr, "error.txt")]
    case Unsupported => []
  }

  /** The compiler and its arguments. */
  function CompileProgram(lang: Language, className: string): seq<string> {
    match lang
    case Cpp => ["/usr/bin/g++", "-std=c++17", "-O2", "-Wall", "-o", "solution", SourceFile(lang, className)]
    case Java =>
      ["/usr/bin/javac", "-J-Xms16m", "-J-Xmx128m", "-J-Xss256k", "-J-Xint", "-J-XX:+UseSerialGC",
       "-J-XX:ActiveProcessorCount=1", "-J-XX:-UseCompressedOops", "-J-XX:-UseCompressedClassPointers",
       "-J-XX:ReservedCodeCacheSize=32m", "-J-XX:MaxMetaspaceSize=128m", SourceFile(lang, className)]
    case Python => ["/usr/bin/python3", "-m", "py_compile", SourceFile(lang, className)]
    case Go => ["/usr/bin/env", "go", "build", "-o", "solution", SourceFile(lang, className)]
    case Unsupported => []
  }

  function CompileArgs(lang: Language, id: int, className: string): seq<string> {
    Render(CompileSwitches(lang, id)) + [RUN_MARK, "--"] + CompileProgram(lang, className)
  }

  /** The submitted program and its arguments. */
  function RunProgram(lang: Language, className: string): seq<string> {
    match lang
    case Cpp | Go => ["./solution"]
    case Java =>
      ["/usr/bin/java", "-Xms16m", "-Xmx128m", "-Xss256k", "-Xint", "-XX:+UseSerialGC",
       "-XX:ActiveProcessorCount=1", "-XX:-UseCompressedOops", "-XX:-UseCompressedClassPointers",
       "-XX:ReservedCodeCacheSize=32m", "-XX:MaxMetaspaceSize=128m", "-cp", ".", className]
    case Python => ["/usr/bin/python3", "solution.py"]
    case Unsupported => []
  }

  /** `std::to_string(std::max(5.0, time_limit_ms / 1000.0 * 2.0))`: six decimals, of which
      whole milliseconds fill three. */
  function WallTime(timeLimitMs: int): string {
    var ms := Max(5000, 2 * timeLimitMs);
    ToString(ms / 1000) + "." + [Digit(ms / 100 % 10), Digit(ms / 10 % 10), Digit(ms % 10)] + "000"
  }

  function ProcessLimit(lang: Language): string {
    match lang case Cpp => "1" case Java => "256" case _ => "64"
  }

  function IsolateMemory(lang: Language, memoryLimitKb: int): int {
    if lang == Java then Max(memoryLimitKb, 2097152) else memoryLimitKb
  }

  function RunHead(lang: Language, id: int): (head: Options)
    ensures |head| == 3
  {
    [(BoxId, ToString(id)), (Environment, "PATH=/usr/local/go/bin:/usr/bin:/bin"), (Processes, ProcessLimit(lang))]
  }

  function RunTail(lang: Language, timeLimitMs: int, memoryLimitKb: int): Options {
    [(Memory, ToString(IsolateMemory(lang, memoryLimitKb))), (WallLimit, WallTime(timeLimitMs)),
     (Stdin, "input.txt"), (Stdout, "output.txt"), (Stderr, "error.txt")]
  }

  /** Isolate's own options of a run: the Java directories stand fourth to sixth. */
  function RunSwitches(lang: Language, id: int, timeLimitMs: int, memoryLimitKb: int): Options {
    RunHead(lang, id) + (if lang == Java then JAVA_DIRS else []) + RunTail(lang, timeLimitMs, memoryLimitKb)
  }

  function RunArgs(lang: Language, id: int, timeLimitMs: int, memoryLimitKb: int, className: string): seq<string> {
    Render(RunSwitches(lang, id, timeLimitMs, memoryLimitKb)) + [RUN_MARK, "--"] + RunProgram(lang, className)
  }

  /** The argument list as `run` assembles it: a literal, an insertion, an append. */
  method BuildRunArgs(lang: Language, id: int, timeLimitMs: int, memoryLimitKb: int, className: string)
    returns (args: seq<string>)
    ensures args == RunArgs(lang, id, timeLimitMs, memoryLimitKb, className)
  {
    hide RunProgram, RunTail, RunHead, Render;
    var head, tail := RunHead(lang, id), RunTail(lang, timeLimitMs, memoryLimitKb);
    RenderJoins(head, JAVA_DIRS);
    RenderJoins(head + JAVA_DIRS, tail);
    RenderJoins(head, tail);
    assert head + [] + tail == head + tail;
    args := Render(head + tail) + [RUN_MARK, "--"];
    InsertedAfter(Render(head), Render(JAVA_DIRS), Render(tail), [RUN_MARK, "--"]);
    if lang == Java {
      args := args[..3] + Render(JAVA_DIRS) + args[3..];
    }
    args := args + RunProgram(lang, className);
  }

  lemma InsertedAfter<T>(head: seq<T>, middle: seq<T>, tail: seq<T>, end: seq<T>)
    ensures var s := head + tail + end;
      s[..|head|] + middle + s[|head|..] == head + middle + tail + end
  {
    var s := head + tail + end;
    assert s[..|head|] == head && s[|head|..] == tail + end;
  }

  // ---------- what isolate is told ----------

  /** Entry `k` is the only one that sets its switch, and it sets it to `value`. */
  ghost predicate Sets(options: Options, k: int, switch: Switch, value: string) {
    && 0 <= k < |options| && options[k] == (switch, value)
    && forall j :: 0 <= j < |options| && j != k ==> options[j].0 != switch
  }

  /** Told of one option list and the name of the meta file. */
  lemma SetsTells(options: Options, k: int, switch: Switch, value: string, path: string, rest: seq<string>)
    requires Sets(options, k, switch, value) && switch != MetaFile
    requires forall j :: 0 <= j < |rest| ==> IsBare(rest[j])
    ensures Tells(Render(options + [(MetaFile, path)]) + rest, NameOf(switch), value)
  {
    hide Render, IsBare, Tells, NameOf;
    RenderTells(options + [(MetaFile, path)], k, rest);
  }

  lemma MetaTells(options: Options, path: string, rest: seq<string>)
    requires forall j :: 0 <= j < |options| ==> options[j].0 != MetaFile
    requires forall j :: 0 <= j < |rest| ==> IsBare(rest[j])
    ensures Tells(Render(options + [(MetaFile, path)]) + rest, "meta", path)
  {
    hide Render, IsBare, Tells;
    RenderTells(options + [(MetaFile, path)], |options|, rest);
  }

  lemma CompileSetsOther(lang: Language, id: int)
    requires lang == Cpp || lang == Python || lang == Go
    ensures var options := CompileSwitches(lang, id);
      var n := |options|;
      && Sets(options, 0, BoxId, ToString(id))
      && Sets(options, n - 3, Processes, if lang == Python then "20" else "50")
      && Sets(options, n - 2, WallLimit, if lang == Python then "10" else "30")
      && Sets(options, n - 1, Stderr, "error.txt")
      && forall j :: 0 <= j < n ==> options[j].0 != Memory && options[j].0 != MetaFile
  {
    hide ToString;
  }

  lemma CompileSetsJava(id: int)
    ensures var options := CompileSwitches(Java, id);
      && Sets(options, 0, BoxId, ToString(id)) && Sets(options, 5, Processes, "256")
      && Sets(options, 6, Memory, "2097152") && Sets(options, 7, WallLimit, "30")
      && Sets(options, 8, Stderr, "error.txt")
      && forall j :: 0 <= j < |options| ==> options[j].0 != MetaFile
  {
    hide ToString;
  }

  /** What isolate is told about a compilation: the box, the meta and error files, and the limits
      on processes, memory and wall time. */
  lemma CompileTold(lang: Language, id: int, path: string, rest: seq<string>)
    requires lang != Unsupported
    requires forall j :: 0 <= j < |rest| ==> IsBare(rest[j])
    ensures var told := Render(CompileSwitches(lang, id) + [(MetaFile, path)]) + rest;
      && TellsNumber(told, "box-id", id)
      && Tells(told, "meta", path)
      && Tells(told, "stderr", "error.txt")
      && TellsNumber(told, "processes", if lang == Java then 256 else if lang == Python then 20 else 50)
      && TellsNumber(told, "wall-time", if lang == Python then 10 else 30)
      && (if lang == Java then TellsNumber(told, "mem", 2097152) else Silent(told, "mem"))
  {
    hide ToString, NumberOf, Render, IsBare, Tells, Silent, CompileSwitches;
    var options := CompileSwitches(lang, id);
    var n := |options|;
    ToStringReads(id);
    SmallNumbers();
    if lang == Java {
      CompileSetsJava(id);
      SetsTells(options, 5, Processes, "256", path, rest);
      SetsTells(options, 6, Memory, "2097152", path, rest);
      SetsTells(options, 7, WallLimit, "30", path, rest);
      SetsTells(options, 8, Stderr, "error.txt", path, rest);
    } else {
      CompileSetsOther(lang, id);
      SetsTells(options, n - 3, Processes, if lang == Python then "20" else "50", path, rest);
      SetsTells(options, n - 2, WallLimit, if lang == Python then "10" else "30", path, rest);
      SetsTells(options, n - 1, Stderr, "error.txt", path, rest);
      RenderSilent(options + [(MetaFile, path)], Memory, rest);
    }
    SetsTells(options, 0, BoxId, ToString(id), path, rest);
    MetaTells(options, path, rest);
  }

  lemma RunSets(lang: Language, id: int, timeLimitMs: int, memoryLimitKb: int)
    ensures var options := RunSwitches(lang, id, timeLimitMs, memoryLimitKb);
      var n := |options|;
      && n >= 8
      && Sets(options, 0, BoxId, ToString(id)) && Sets(options, 2, Processes, ProcessLimit(lang))
      && Sets(options, n - 5, Memory, ToString(IsolateMemory(lang, memoryLimitKb)))
      && Sets(options, n - 4, WallLimit, WallTime(timeLimitMs))
      && forall j :: 0 <= j < n ==> options[j].0 != MetaFile
  {
    hide ToString, WallTime, IsolateMemory, ProcessLimit;
  }

  lemma RunSetsFiles(lang: Language, id: int, timeLimitMs: int, memoryLimitKb: int)
    ensures var options := RunSwitches(lang, id, timeLimitMs, memoryLimitKb);
      var n := |options|;
      && n >= 8
      && Sets(options, n - 3, Stdin, "input.txt") && Sets(options, n - 2, Stdout, "output.txt")
      && Sets(options, n - 1, Stderr, "error.txt")
  {
    hide ToString, WallTime, IsolateMemory, ProcessLimit;
  }

  /** What isolate is told about a run: the box, the meta, input, output and error files, and the
      limits: the memory limit of the submission, at least 2 GiB for Java, and as wall time the
      larger of 5 s and twice the time limit. */
  lemma RunTold(lang: Language, id: int, timeLimitMs: int, memoryLimitKb: int, path: string, rest: seq<string>)
    requires lang != Unsupported
    requires forall j :: 0 <= j < |rest| ==> IsBare(rest[j])
    ensures var told := Render(RunSwitches(lang, id, timeLimitMs, memoryLimitKb) + [(MetaFile, path)]) + rest;
      && TellsNumber(told, "box-id", id)
      && Tells(told, "meta", path)
      && Tells(told, "stdin", "input.txt") && Tells(told, "stdout", "output.txt") && Tells(told, "stderr", "error.txt")
      && TellsNumber(told, "processes", if lang == Cpp then 1 else if lang == Java then 256 else 64)
      && TellsNumber(told, "mem", if lang == Java && memoryLimitKb < 2097152 then 2097152 else memoryLimitKb)
      && TellsMicros(told, "wall-time", 1000 * if 2 * timeLimitMs < 5000 then 5000 else 2 * timeLimitMs)
  {
    hide ToString, NumberOf, Render, IsBare, Tells, Silent, RunSwitches, WallTime, MicrosOf;
    var options := RunSwitches(lang, id, timeLimitMs, memoryLimitKb);
    var n := |options|;
    RunSets(lang, id, timeLimitMs, memoryLimitKb);
    RunSetsFiles(lang, id, timeLimitMs, memoryLimitKb);
    SetsTells(options, 0, BoxId, ToString(id), path, rest);
    MetaTells(options, path, rest);
    SetsTells(options, 2, Processes, ProcessLimit(lang), path, rest);
    SetsTells(options, n - 5, Memory, ToString(IsolateMemory(lang, memoryLimitKb)), path, rest);
    SetsTells(options, n - 4, WallLimit, WallTime(timeLimitMs), path, rest);
    SetsTells(options, n - 3, Stdin, "input.txt", path, rest);
    SetsTells(options, n - 2, Stdout, "output.txt", path, rest);
    SetsTells(options, n - 1, Stderr, "error.txt", path, rest);
    ToStringReads(id);
    ToStringReads(IsolateMemory(lang, memoryLimitKb));
    SmallNumbers();
    WallTimeReads(timeLimitMs);
  }

  lemma SmallNumbers()
    ensures NumberOf("1") == Some(1) && NumberOf("10") == Some(10) && NumberOf("20") == Some(20)
    ensures NumberOf("30") == Some(30) && NumberOf("50") == Some(50) && NumberOf("64") == Some(64)
    ensures NumberOf("256") == Some(256) && NumberOf("2097152") == Some(2097152)
  {
    LargerNumbers();
  }

  lemma LargerNumbers()
    ensures NumberOf("256") == Some(256) && NumberOf("2097152") == Some(2097152)
  {
    assert "256"[..2] == "25";
    assert NaturalOf("25") == Some(25);
    assert NaturalOf("256") == Some(256);
    assert "2097152"[..6] == "209715" && "209715"[..5] == "20971" && "20971"[..4] == "2097" && "2097"[..3] == "209";
    assert NaturalOf("209") == Some(209);
    assert NaturalOf("2097") == Some(2097);
    assert NaturalOf("20971") == Some(20971);
    assert NaturalOf("209715") == Some(209715);
    assert NaturalOf("2097152") == Some(2097152);
  }

  /** A number with six decimals, read in millionths. */
  function MicrosOf(s: string): Option<int> {
    var k := Find(s, '.');
    if |s| != k + 7 then None
    else
      match NaturalOf(s[..k])
      case None => None
      case Some(whole) =>
        match NaturalOf(s[k + 1..]) case None => None case Some(part) => Some(1000000 * whole + part)
  }

  ghost predicate TellsMicros(tokens: seq<string>, name: string, micros: int) {
    exists value :: Tells(tokens, name, value) && MicrosOf(value) == Some(micros)
  }

  lemma {:induction false} NumeralsHaveNoPoint(s: string)
    requires NaturalOf(s).Some?
    ensures '.' !in s
  {
    var n := |s| - 1;
    if n > 0 {
      NumeralsHaveNoPoint(s[..n]);
    }
    assert s == s[..n] + [s[n]];
  }

  lemma ThreeDigits(h: nat, t: nat, u: nat)
    requires h < 10 && t < 10 && u < 10
    ensures NaturalOf([Digit(h), Digit(t), Digit(u)] + "000") == Some(1000 * (100 * h + 10 * t + u))
  {
    hide Digit, NaturalOf;
    var a, b, c := Digit(h), Digit(t), Digit(u);
    DigitReads(h);
    DigitReads(t);
    DigitReads(u);
    OneDigit(a);
    OneMoreDigit([a], b);
    OneMoreDigit([a] + [b], c);
    OneMoreDigit([a] + [b] + [c], '0');
    OneMoreDigit([a] + [b] + [c] + ['0'], '0');
    OneMoreDigit([a] + [b] + [c] + ['0'] + ['0'], '0');
    assert [a, b, c] + "000" == [a] + [b] + [c] + ['0'] + ['0'] + ['0'];
  }

  lemma OneDigit(c: char)
    ensures NaturalOf([c]) == DigitOf(c)
  {
  }

  lemma OneMoreDigit(s: string, c: char)
    requires NaturalOf(s).Some? && DigitOf(c).Some?
    ensures NaturalOf(s + [c]) == Some(10 * NaturalOf(s).value + DigitOf(c).value)
  {
    assert (s + [c])[..|s|] == s;
  }

  lemma LastDigits(ms: nat)
    ensures 1000 * (ms / 1000) + 100 * (ms / 100 % 10) + 10 * (ms / 10 % 10) + ms % 10 == ms
  {
    var tens := ms / 10;
    var hundreds := tens / 10;
    assert ms / 100 == hundreds;
    assert ms / 1000 == hundreds / 10;
  }

  lemma PointAfter(whole: string, part: string)
    requires '.' !in whole
    ensures var s := whole + "." + part;
      Find(s, '.') == |whole| && |s| == |whole| + 1 + |part| && s[..|whole|] == whole && s[|whole| + 1..] == part
  {
    var s := whole + "." + part;
    assert s[|whole|] == '.' && forall j :: 0 <= j < |whole| ==> s[j] == whole[j] && whole[j] in whole;
  }

  lemma WallTimeReads(timeLimitMs: int)
    ensures MicrosOf(WallTime(timeLimitMs)) == Some(1000 * if 2 * timeLimitMs < 5000 then 5000 else 2 * timeLimitMs)
  {
    hide ToString, NaturalOf, Find, Digit;
    var ms := Max(5000, 2 * timeLimitMs);
    var h, t, u := ms / 100 % 10, ms / 10 % 10, ms % 10;
    var whole, part := ToString(ms / 1000), [Digit(h), Digit(t), Digit(u)] + "000";
    NaturalReads(ms / 1000);
    NumeralsHaveNoPoint(whole);
    LastDigits(ms);
    ThreeDigits(h, t, u);
    PointAfter(whole, part);
    ConcatAssoc(whole + ".", [Digit(h), Digit(t), Digit(u)], "000");
  }
}
