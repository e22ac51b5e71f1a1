/** The `Sandbox` class: a wrapper around one box directory of the host. */
module Sandboxes {
  import opened Base
  import opened Meta
  import opened Commands
  import opened Boxes

  /** The host's box directories, shared by every wrapper. */
  class Disk {
    const m: Machine
    var boxes: map<int, Box>

    constructor (m: Machine)
      ensures this.m == m && boxes == map[]
    {
      this.m := m;
      boxes := map[];
    }

    /** `std::system` on an isolate command. */
    method Isolate(cmd: seq<string>) returns (ran: bool)
      modifies this
      ensures (ran, boxes) == IsolateAll(m, old(boxes), cmd)
    {
      hide BoxNamed, IsolateIn;
      var named := BoxNamed(cmd);
      if named.None? || named.value !in boxes {
        return false;
      }
      var (done, box) := IsolateIn(m, boxes[named.value], cmd);
      boxes := boxes[named.value := box];
      ran := done;
    }
  }

  class Sandbox {
    const boxId: int
    const isolateBin: string
    const boxPath: string
    const disk: Disk
    var javaMainClass: string

    ghost predicate Valid()
      reads this, disk
    {
      boxId in disk.boxes && isolateBin == disk.m.bin && boxPath == BoxPath(boxId) && IsPlainName(javaMainClass)
    }

    constructor (id: int, disk: Disk)
      ensures boxId == id && this.disk == disk && javaMainClass == "Main"
      ensures isolateBin == disk.m.bin && boxPath == BoxPath(id)
    {
      boxId := id;
      isolateBin := disk.m.bin;
      boxPath := BoxPath(id);
      this.disk := disk;
      javaMainClass := "Main";
    }

    /** `init`: a fresh box directory, or failure and no box. */
    method Init() returns (ok: bool)
      modifies disk
      ensures ok == disk.m.initializes(boxId)
      ensures disk.boxes == if ok then old(disk.boxes)[boxId := Box(map[], 0)] else old(disk.boxes)
    {
      ok := disk.m.initializes(boxId);
      if ok {
        disk.boxes := disk.boxes[boxId := Box(map[], 0)];
      }
    }

    method WriteFile(name: string, content: string) returns (ok: bool)
      requires Valid()
      modifies disk
      ensures Valid()
      ensures var (written, box) := WriteOn(disk.m, boxId, old(disk.boxes[boxId]), name, content);
        ok == written && disk.boxes == old(disk.boxes)[boxId := box]
    {
      var box := disk.boxes[boxId];
      ok := disk.m.opens(box, boxPath + name);
      var files := box.files;
      if ok {
        files := files[name := content];
      }
      disk.boxes := disk.boxes[boxId := Box(files, box.calls + 1)];
    }

    method MakeDir(name: string) returns (ok: bool)
      requires Valid()
      modifies disk
      ensures Valid()
      ensures var (made, box) := MakeDirOn(disk.m, boxId, old(disk.boxes[boxId]), name);
        ok == made && disk.boxes == old(disk.boxes)[boxId := box]
    {
      var box := disk.boxes[boxId];
      ok := disk.m.makesDir(box, boxPath + name);
      disk.boxes := disk.boxes[boxId := Box(box.files, box.calls + 1)];
    }

    /** The loop of `execute` that assembles the command. */
    method BuildCommand(args: seq<string>, meta: string) returns (cmd: seq<string>)
      requires Valid()
      ensures cmd == CommandLine(disk.m.bin, args, MetaOption(boxId, meta))
    {
      hide MetaOption;
      ghost var k := Find(args, RUN_MARK);
      ghost var token := MetaOption(boxId, meta);
      cmd := [isolateBin];
      var metaAdded := false;
      for i := 0 to |args|
        invariant metaAdded <==> k < i
        invariant cmd == [isolateBin] + if metaAdded then args[..k] + [token] + args[k..i] else args[..i]
      {
        if !metaAdded && args[i] == RUN_MARK {
          cmd := cmd + [MetaOption(boxId, meta)];
          metaAdded := true;
        }
        cmd := cmd + [args[i]];
      }
      if !metaAdded {
        cmd := cmd + [MetaOption(boxId, meta)];
      }
    }

    /** `execute`: the command with the meta option, the shell call, and the files read back. The
        commands that `compile` and `run` pass name the box of this sandbox. */
    method Execute(args: seq<string>, meta: string) returns (r: Try<SandboxResult>)
      requires Valid()
      requires BoxNamed(CommandLine(disk.m.bin, args, MetaOption(boxId, meta))) == Some(boxId)
      modifies disk
      ensures Valid()
      ensures var (ran, box) := IsolateOn(disk.m, boxId, old(disk.boxes[boxId]), args, meta);
        r == ReadBack(disk.m, boxId, box, ran, meta) && disk.boxes == old(disk.boxes)[boxId := box]
    {
      hide CommandLine, BoxPath, MetaResult, BoxNamed, MetaOption;
      var cmd := BuildCommand(args, meta);
      var ran := disk.Isolate(cmd);
      if !ran {
        return Returned(SandboxFailure("Failed to execute isolate binary"));
      }
      var files := disk.boxes[boxId].files;
      r := ParseMeta(disk.m.conv, Lookup(files, meta), boxPath + meta);
      if r.Returned? {
        r := Returned(r.value.(stdout := ReadFile(files, OUTPUT), stderr := ReadFile(files, ERRORS)));
      }
    }

    /** The part of `compile` before the call of isolate: the class name, the Go directories,
        the source file. */
    method WriteSourceFile(language: string, code: string) returns (failure: Option<SandboxResult>, className: string)
      requires Valid()
      modifies this, disk
      ensures Valid()
      ensures var (early, box) := PrepareCompile(disk.m, boxId, old(disk.boxes[boxId]), language, code);
        failure == early && disk.boxes == old(disk.boxes)[boxId := box]
      ensures className == ClassOf(LanguageOf(language), code) && IsPlainName(className)
      ensures failure.None? ==> LanguageOf(language) != Unsupported
      ensures javaMainClass == if LanguageOf(language) == Java then JavaClassName(code) else old(javaMainClass)
    {
      hide LanguageOf, JavaClassName, WriteOn, MakeDirOn, SourceFile, SandboxFailure;
      var lang := LanguageOf(language);
      className := "Main";
      if lang == Java {
        className := ReadJavaClassName(code);
        ClassNameIsIdentifier(code);
        javaMainClass := className;
      } else if lang == Go {
        var made := MakeDir("tmp");
        if !made {
          return Some(SandboxFailure("Failed to create Go temp directory")), className;
        }
        made := MakeDir("tmp/go-cache");
        if !made {
          return Some(SandboxFailure("Failed to create Go build cache directory")), className;
        }
      } else if lang == Unsupported {
        return Some(SandboxFailure("Unsupported language: " + language)), className;
      }
      var written := WriteFile(SourceFile(lang, className), code);
      if !written {
        return Some(SandboxFailure("Failed to write source file: " + SourceFile(lang, className))), className;
      }
      failure := None;
    }

    /** `compile`: it also remembers the Java class for the runs that follow. */
    method Compile(language: string, code: string) returns (r: Try<SandboxResult>)
      requires Valid()
      modifies this, disk
      ensures Valid()
      ensures var (result, box) := CompileOn(disk.m, boxId, old(disk.boxes[boxId]), language, code);
        r == result && disk.boxes == old(disk.boxes)[boxId := box]
      ensures javaMainClass == if LanguageOf(language) == Java then JavaClassName(code) else old(javaMainClass)
    {
      hide LanguageOf, JavaClassName, ClassOf, PrepareCompile, IsolateOn, ReadBack, CompileArgs, CommandLine,
        MetaOption, BoxNamed, BoxPath;
      var failure, className := WriteSourceFile(language, code);
      if failure.Some? {
        return Returned(failure.value);
      }
      CompileNamesBox(disk.m.bin, LanguageOf(language), boxId, className);
      r := Execute(CompileArgs(LanguageOf(language), boxId, className), COMPILE_META);
      if r.Returned? && r.value.stderr == "" {
        r := Returned(r.value.(stderr := ReadFile(disk.boxes[boxId].files, ERRORS)));
      }
    }

    /** `run`: the input goes to its file, and the raw status decides about the time-out. */
    method Run(language: string, timeLimitMs: int, memoryLimitKb: int, input: string) returns (r: Try<SandboxResult>)
      requires Valid()
      modifies disk
      ensures Valid()
      ensures var q := RunRequest(language, javaMainClass, timeLimitMs, memoryLimitKb, input);
        var (result, box) := RunOn(disk.m, boxId, old(disk.boxes[boxId]), q);
        r == result && disk.boxes == old(disk.boxes)[boxId := box]
    {
      hide LanguageOf, WriteOn, IsolateOn, ReadBack, RunArgs, SandboxFailure, CommandLine, MetaOption, BoxNamed,
        BoxPath;
      var written := WriteFile(INPUT, input);
      if !written {
        return Returned(SandboxFailure("Failed to write input file"));
      }
      var lang := LanguageOf(language);
      if lang == Unsupported {
        return Returned(SandboxFailure("Unsupported language: " + language));
      }
      var args := BuildRunArgs(lang, boxId, timeLimitMs, memoryLimitKb, javaMainClass);
      RunNamesBox(disk.m.bin, lang, boxId, timeLimitMs, memoryLimitKb, javaMainClass);
      r := Execute(args, RUN_META);
      if r.Returned? {
        r := Returned(r.value.(timedOut := r.value.status == "TO"));
      }
    }
  }
}
