/** The result record of one isolate invocation and the meta file it is read from. */
module Meta {
  import opened Base

  datatype SandboxResult = SandboxResult(
    exitCode: int,
    signal: int,
    timeMs: int,
    memoryKb: int,
    stdout: string,
    stderr: string,
    timedOut: bool,
    status: string)

  const FRESH_RESULT := SandboxResult(0, 0, 0, 0, "", "", false, "")

  /** The record returned when a step of the sandbox itself fails. */
  function SandboxFailure(message: string): SandboxResult {
    FRESH_RESULT.(exitCode := -1, stderr := message, status := "XX")
  }

  /** The library conversions: `std::stod` scaled to whole milliseconds and
      `std::stoi`. `None` is the exception they throw on a malformed text. */
  datatype Numerals = Numerals(millis: string -> Option<int>, number: string -> Option<int>)

  // ---------- parsing ----------

  datatype Field = CpuTime | WallTime | MaxRss | CgMem | ExitCode | ExitSignal | RawStatus | Killed | Other

  /** A line of the meta file: the field its key names, and the text after the colon. */
  datatype Entry = Entry(field: Field, val: string)

  function FieldOf(key: string): Field {
    if key == "time" then CpuTime
    else if key == "time-wall" then WallTime
    else if key == "max-rss" then MaxRss
    else if key == "cg-mem" then CgMem
    else if key == "exitcode" then ExitCode
    else if key == "status" then RawStatus
    else if key == "exitsig" then ExitSignal
    else if key == "killed" then Killed
    else Other
  }

  /** The first colon separates key and value; a line without one says nothing. */
  function EntryOf(line: string): Entry {
    var colon := Find(line, ':');
    if colon == |line| then Entry(Other, "") else Entry(FieldOf(line[..colon]), line[colon + 1..])
  }

  function Entries(lines: seq<string>): seq<Entry> {
    if lines == [] then [] else [EntryOf(lines[0])] + Entries(lines[1..])
  }

  /** The effect of one line on the record read so far. */
  function ReadEntry(conv: Numerals, r: SandboxResult, e: Entry): Try<SandboxResult> {
    match e.field
    case CpuTime => (match conv.millis(e.val) case None => Threw case Some(ms) => Returned(r.(timeMs := ms)))
    case WallTime =>
      (match conv.millis(e.val) case None => Threw case Some(ms) => Returned(r.(timeMs := Max(ms, r.timeMs))))
    case MaxRss => (match conv.number(e.val) case None => Threw case Some(n) => Returned(r.(memoryKb := n)))
    case CgMem => (match conv.number(e.val) case None => Threw case Some(n) => Returned(r.(memoryKb := n)))
    case ExitCode => (match conv.number(e.val) case None => Threw case Some(n) => Returned(r.(exitCode := n)))
    case RawStatus => Returned(r.(status := e.val))
    case ExitSignal => (match conv.number(e.val) case None => Threw case Some(n) => Returned(r.(signal := n)))
    case Killed => Returned(r.(timedOut := true))
    case Other => Returned(r)
  }

  function ThenEntry(conv: Numerals, r: Try<SandboxResult>, e: Entry): Try<SandboxResult> {
    match r case Threw => Threw case Returned(v) => ReadEntry(conv, v, e)
  }

  function ReadEntries(conv: Numerals, entries: seq<Entry>): Try<SandboxResult> {
    if entries == [] then Returned(FRESH_RESULT)
    else ThenEntry(conv, ReadEntries(conv, entries[..|entries| - 1]), entries[|entries| - 1])
  }

  /** `parse_meta` on a file that may be missing. */
  function MetaResult(conv: Numerals, file: Option<string>, path: string): Try<SandboxResult> {
    match file
    case None => Returned(SandboxFailure("Cannot read meta file: " + path))
    case Some(text) => ReadEntries(conv, Entries(Lines(text)))
  }

  lemma {:induction false} ThrowingIsFinal(conv: Numerals, done: seq<Entry>, rest: seq<Entry>)
    requires ReadEntries(conv, done).Threw?
    ensures ReadEntries(conv, done + rest).Threw?
  {
    if rest == [] {
      assert done + rest == done;
    } else {
      ThrowingIsFinal(conv, done, rest[..|rest| - 1]);
      assert (done + rest)[..|done + rest| - 1] == done + rest[..|rest| - 1];
    }
  }

  method SplitEntry(line: string) returns (e: Entry)
    ensures [e] == Entries([line])
  {
    var colon := Find(line, ':');
    e := Entry(Other, "");
    if colon < |line| {
      e := Entry(FieldOf(line[..colon]), line[colon + 1..]);
    }
  }

  lemma {:induction false} EntriesJoin(a: seq<string>, b: seq<string>)
    ensures Entries(a + b) == Entries(a) + Entries(b)
  {
    hide EntryOf;
    if a == [] {
      assert a + b == b && [] + Entries(b) == Entries(b);
    } else {
      EntriesJoin(a[1..], b);
      TailOfConcat(a, b);
      FirstEntry(a);
      FirstEntry(a + b);
      hide Entries;
      ConcatAssoc([EntryOf(a[0])], Entries(a[1..]), Entries(b));
    }
  }

  lemma FirstEntry(lines: seq<string>)
    requires lines != []
    ensures Entries(lines) == [EntryOf(lines[0])] + Entries(lines[1..])
  {
    hide EntryOf;
  }

  /** One more line read: `line` and `e` are what the stream gave at `pos`. */
  lemma OneMoreLine(text: string, pos: nat, line: string, next: nat, done: seq<Entry>, e: Entry)
    requires pos <= |text| && next <= |text|
    requires Lines(text[pos..]) == [line] + Lines(text[next..])
    requires [e] == Entries([line])
    ensures done + Entries(Lines(text[pos..])) == (done + [e]) + Entries(Lines(text[next..]))
  {
    hide EntryOf;
    EntriesJoin([line], Lines(text[next..]));
  }

  lemma ReadOneMore(conv: Numerals, done: seq<Entry>, e: Entry)
    ensures ReadEntries(conv, done + [e]) == ThenEntry(conv, ReadEntries(conv, done), e)
  {
    assert (done + [e])[..|done|] == done;
  }

  /** `parse_meta`: the loop over the lines of the file, left by an exception on the
      first malformed number. */
  method ParseMeta(conv: Numerals, file: Option<string>, path: string) returns (r: Try<SandboxResult>)
    ensures r == MetaResult(conv, file, path)
  {
    if file.None? {
      return Returned(SandboxFailure("Cannot read meta file: " + path));
    }
    r := ParseLines(conv, file.value);
  }

  method ParseLines(conv: Numerals, text: string) returns (r: Try<SandboxResult>)
    ensures r == ReadEntries(conv, Entries(Lines(text)))
  {
    hide EntryOf, ReadEntry, Lines;
    r := Returned(FRESH_RESULT);
    var pos := 0;
    ghost var done: seq<Entry> := [];
    assert text[0..] == text;
    while pos < |text|
      invariant 0 <= pos <= |text|
      invariant done + Entries(Lines(text[pos..])) == Entries(Lines(text))
      invariant ReadEntries(conv, done) == r && r.Returned?
    {
      var line, next := GetLine(text, pos);
      var e := SplitEntry(line);
      OneMoreLine(text, pos, line, next, done, e);
      ReadOneMore(conv, done, e);
      r := ReadEntry(conv, r.value, e);
      done := done + [e];
      pos := next;
      if r.Threw? {
        ThrowingIsFinal(conv, done, Entries(Lines(text[next..])));
        return;
      }
    }
    EndOfText(text, pos, done);
  }

  lemma EndOfText(text: string, pos: nat, done: seq<Entry>)
    requires pos == |text|
    ensures done + Entries(Lines(text[pos..])) == done
  {
    assert text[pos..] == "";
  }

  // ---------- closed form ----------

  predicate WellFormed(conv: Numerals, e: Entry) {
    match e.field
    case CpuTime | WallTime => conv.millis(e.val).Some?
    case MaxRss | CgMem | ExitCode | ExitSignal => conv.number(e.val).Some?
    case _ => true
  }

  function Millis(conv: Numerals, e: Entry): int {
    match conv.millis(e.val) case Some(ms) => ms case None => 0
  }

  /** The last entry that assigns one of `fields`, or -1. */
  function Last(entries: seq<Entry>, fields: set<Field>): (k: int)
    ensures -1 <= k < |entries|
    ensures 0 <= k ==> entries[k].field in fields
    ensures forall i :: k < i < |entries| ==> entries[i].field !in fields
  {
    if entries == [] then -1
    else if entries[|entries| - 1].field in fields then |entries| - 1
    else Last(entries[..|entries| - 1], fields)
  }

  /** The number of the last entry that assigns one of `fields`, 0 when there is none. */
  function LastNumber(conv: Numerals, entries: seq<Entry>, fields: set<Field>): int {
    var k := Last(entries, fields);
    if k < 0 then 0 else match conv.number(entries[k].val) case Some(n) => n case None => 0
  }

  function LastText(entries: seq<Entry>, fields: set<Field>): string {
    var k := Last(entries, fields);
    if k < 0 then "" else entries[k].val
  }

  function TimeBase(conv: Numerals, entries: seq<Entry>): int {
    var k := Last(entries, {CpuTime});
    if k < 0 then 0 else Millis(conv, entries[k])
  }

  /** `t` is the maximum of the last `time` value (0 if none) and of every `time-wall`
      value after it. */
  ghost predicate IsTimeOf(conv: Numerals, entries: seq<Entry>, t: int) {
    var k := Last(entries, {CpuTime});
    && TimeBase(conv, entries) <= t
    && (forall i :: k < i < |entries| && entries[i].field == WallTime ==> Millis(conv, entries[i]) <= t)
    && (t == TimeBase(conv, entries)
        || exists i :: k < i < |entries| && entries[i].field == WallTime && Millis(conv, entries[i]) == t)
  }

  /** Parsing throws exactly on a malformed number. */
  lemma {:induction false} ThrowsIffMalformed(conv: Numerals, entries: seq<Entry>)
    ensures ReadEntries(conv, entries).Returned? <==> forall i :: 0 <= i < |entries| ==> WellFormed(conv, entries[i])
  {
    if entries != [] {
      var n := |entries| - 1;
      ThrowsIffMalformed(conv, entries[..n]);
      assert forall i :: 0 <= i < n ==> entries[..n][i] == entries[i];
    }
  }

  ghost predicate IsRecordOf(conv: Numerals, entries: seq<Entry>, r: SandboxResult) {
    && IsTimeOf(conv, entries, r.timeMs)
    && r.memoryKb == LastNumber(conv, entries, {MaxRss, CgMem})
    && r.exitCode == LastNumber(conv, entries, {ExitCode})
    && r.signal == LastNumber(conv, entries, {ExitSignal})
    && r.status == LastText(entries, {RawStatus})
    && (r.timedOut <==> Last(entries, {Killed}) >= 0)
    && r.stdout == "" && r.stderr == ""
  }

  /** The closed form of `parse_meta` on well-formed lines. */
  lemma {:induction false} MetaClosedForm(conv: Numerals, entries: seq<Entry>)
    requires ReadEntries(conv, entries).Returned?
    ensures IsRecordOf(conv, entries, ReadEntries(conv, entries).value)
  {
    hide ReadEntry, IsRecordOf;
    if entries == [] {
      RecordOfNone(conv);
    } else {
      var n := |entries| - 1;
      var init, e := entries[..n], entries[n];
      MetaClosedForm(conv, init);
      RecordOfOneMore(conv, init, e, ReadEntries(conv, init).value);
      assert entries == init + [e];
    }
  }

  lemma RecordOfNone(conv: Numerals)
    ensures IsRecordOf(conv, [], FRESH_RESULT)
  {
  }

  lemma LastOfOneMore(conv: Numerals, init: seq<Entry>, e: Entry, fields: set<Field>)
    ensures Last(init + [e], fields) == if e.field in fields then |init| else Last(init, fields)
    ensures LastNumber(conv, init + [e], fields) ==
            if e.field in fields then (match conv.number(e.val) case Some(n) => n case None => 0)
            else LastNumber(conv, init, fields)
    ensures LastText(init + [e], fields) == if e.field in fields then e.val else LastText(init, fields)
  {
    assert (init + [e])[..|init|] == init;
  }

  lemma RecordOfOneMore(conv: Numerals, init: seq<Entry>, e: Entry, r: SandboxResult)
    requires IsRecordOf(conv, init, r)
    requires ReadEntry(conv, r, e).Returned?
    ensures IsRecordOf(conv, init + [e], ReadEntry(conv, r, e).value)
  {
    hide IsTimeOf, Last, LastNumber, LastText;
    TimeOfOneMore(conv, init, e, r.timeMs);
    LastOfOneMore(conv, init, e, {MaxRss, CgMem});
    LastOfOneMore(conv, init, e, {ExitCode});
    LastOfOneMore(conv, init, e, {ExitSignal});
    LastOfOneMore(conv, init, e, {RawStatus});
    LastOfOneMore(conv, init, e, {Killed});
  }

  lemma TimeOfOneMore(conv: Numerals, init: seq<Entry>, e: Entry, t: int)
    requires IsTimeOf(conv, init, t)
    ensures IsTimeOf(conv, init + [e],
              if e.field == CpuTime then Millis(conv, e)
              else if e.field == WallTime then Max(Millis(conv, e), t)
              else t)
  {
    var entries := init + [e];
    assert entries[..|init|] == init;
    if e.field != CpuTime && t != TimeBase(conv, init) {
      var i :| Last(init, {CpuTime}) < i < |init| && init[i].field == WallTime && Millis(conv, init[i]) == t;
      assert entries[i] == init[i];
    }
    assert entries[|init|] == e;
  }

  // ---------- order ----------

  /** Entries whose order can matter assign the same member of the record. */
  predicate SameMember(a: Field, b: Field) {
    || (a == b && a != Other)
    || (a in {CpuTime, WallTime} && b in {CpuTime, WallTime})
    || (a in {MaxRss, CgMem} && b in {MaxRss, CgMem})
  }

  /** Adjacent lines that assign different members may be exchanged. */
  lemma {:induction false} AdjacentEntriesCommute(
    conv: Numerals, before: seq<Entry>, a: Entry, b: Entry, after: seq<Entry>)
    requires !SameMember(a.field, b.field)
    ensures ReadEntries(conv, before + [a, b] + after) == ReadEntries(conv, before + [b, a] + after)
  {
    hide ReadEntry;
    var x, y := before + [a, b] + after, before + [b, a] + after;
    if after == [] {
      assert x == (before + [a]) + [b] && y == (before + [b]) + [a];
      ReadOneMore(conv, before + [a], b);
      ReadOneMore(conv, before, a);
      ReadOneMore(conv, before + [b], a);
      ReadOneMore(conv, before, b);
      TwoEntriesCommute(conv, ReadEntries(conv, before), a, b);
    } else {
      var n := |after| - 1;
      AdjacentEntriesCommute(conv, before, a, b, after[..n]);
      InitOfConcat(before + [a, b], after);
      InitOfConcat(before + [b, a], after);
    }
  }

  lemma TwoEntriesCommute(conv: Numerals, r: Try<SandboxResult>, a: Entry, b: Entry)
    requires !SameMember(a.field, b.field)
    ensures ThenEntry(conv, ThenEntry(conv, r, a), b) == ThenEntry(conv, ThenEntry(conv, r, b), a)
  {
  }

  // ---------- closed form on the lines of the file ----------

  /** The text before the first colon of the line is `key`, which holds no colon itself. */
  predicate HasKey(line: string, key: string): (has: bool)
    ensures has ==> |key| < |line|
  {
    |key| < |line| && line[..|key|] == key && line[|key|] == ':'
  }

  /** The last line with this key, or -1. */
  function LastLine(lines: seq<string>, key: string): (k: int)
    ensures -1 <= k < |lines|
    ensures 0 <= k ==> HasKey(lines[k], key)
    ensures forall i :: k < i < |lines| ==> !HasKey(lines[i], key)
  {
    if lines == [] then -1
    else if HasKey(lines[|lines| - 1], key) then |lines| - 1
    else LastLine(lines[..|lines| - 1], key)
  }

  /** The text after the colon in line `k`, nothing when there is no such line. */
  function TextAt(lines: seq<string>, key: string, k: int): string
    requires 0 <= k < |lines| ==> |key| < |lines[k]|
  {
    if 0 <= k < |lines| then lines[k][|key| + 1..] else ""
  }

  function NumberAt(conv: Numerals, lines: seq<string>, key: string, k: int): int
    requires 0 <= k < |lines| ==> |key| < |lines[k]|
  {
    if 0 <= k < |lines| then (match conv.number(TextAt(lines, key, k)) case Some(n) => n case None => 0) else 0
  }

  function MillisAt(conv: Numerals, lines: seq<string>, key: string, k: int): int
    requires 0 <= k < |lines| ==> |key| < |lines[k]|
  {
    if 0 <= k < |lines| then (match conv.millis(TextAt(lines, key, k)) case Some(ms) => ms case None => 0) else 0
  }

  ghost predicate IsTimeOfLines(conv: Numerals, lines: seq<string>, t: int) {
    var k := LastLine(lines, "time");
    var base := MillisAt(conv, lines, "time", k);
    && base <= t
    && (forall i :: k < i < |lines| && HasKey(lines[i], "time-wall") ==> MillisAt(conv, lines, "time-wall", i) <= t)
    && (t == base
        || exists i :: k < i < |lines| && HasKey(lines[i], "time-wall") && MillisAt(conv, lines, "time-wall", i) == t)
  }

  /** What a meta file says, read off its lines. */
  ghost predicate IsRecordOfLines(conv: Numerals, lines: seq<string>, r: SandboxResult) {
    var rss, mem := LastLine(lines, "max-rss"), LastLine(lines, "cg-mem");
    && r.exitCode == NumberAt(conv, lines, "exitcode", LastLine(lines, "exitcode"))
    && r.signal == NumberAt(conv, lines, "exitsig", LastLine(lines, "exitsig"))
    && r.status == TextAt(lines, "status", LastLine(lines, "status"))
    && r.memoryKb == (if rss > mem then NumberAt(conv, lines, "max-rss", rss) else NumberAt(conv, lines, "cg-mem", mem))
    && (r.timedOut <==> LastLine(lines, "killed") >= 0)
    && IsTimeOfLines(conv, lines, r.timeMs)
    && r.stdout == "" && r.stderr == ""
  }

  /** A line whose number, if it has to be one, is one. */
  predicate LineWellFormed(conv: Numerals, line: string) {
    && (HasKey(line, "time") ==> conv.millis(line[5..]).Some?)
    && (HasKey(line, "time-wall") ==> conv.millis(line[10..]).Some?)
    && (HasKey(line, "max-rss") ==> conv.number(line[8..]).Some?)
    && (HasKey(line, "cg-mem") ==> conv.number(line[7..]).Some?)
    && (HasKey(line, "exitcode") ==> conv.number(line[9..]).Some?)
    && (HasKey(line, "exitsig") ==> conv.number(line[8..]).Some?)
  }

  ghost predicate LinesWellFormed(conv: Numerals, lines: seq<string>) {
    forall i :: 0 <= i < |lines| ==> LineWellFormed(conv, lines[i])
  }

  function KeyOf(field: Field): string {
    match field
    case CpuTime => "time"
    case WallTime => "time-wall"
    case MaxRss => "max-rss"
    case CgMem => "cg-mem"
    case ExitCode => "exitcode"
    case ExitSignal => "exitsig"
    case RawStatus => "status"
    case Killed => "killed"
    case Other => ""
  }

  lemma FieldByKey(key: string, field: Field)
    requires field != Other
    ensures FieldOf(key) == field <==> key == KeyOf(field)
  {
  }

  lemma KeysHaveNoColon(field: Field)
    ensures ':' !in KeyOf(field)
  {
  }

  /** A line assigns a field exactly when it has the key of the field. */
  lemma LineByKey(line: string, field: Field)
    requires field != Other
    ensures EntryOf(line).field == field <==> HasKey(line, KeyOf(field))
    ensures HasKey(line, KeyOf(field)) ==> EntryOf(line).val == line[|KeyOf(field)| + 1..]
  {
    hide FieldOf, KeyOf, Find;
    var colon, key := Find(line, ':'), KeyOf(field);
    KeysHaveNoColon(field);
    if HasKey(line, key) {
      assert forall j :: 0 <= j < |key| ==> line[j] == line[..|key|][j] == key[j] && key[j] in key;
      assert colon == |key|;
      FieldByKey(line[..colon], field);
    } else if colon < |line| {
      FieldByKey(line[..colon], field);
    }
  }

  lemma {:induction false} EntriesAt(lines: seq<string>)
    ensures |Entries(lines)| == |lines|
    ensures forall i :: 0 <= i < |lines| ==> Entries(lines)[i] == EntryOf(lines[i])
  {
    hide EntryOf;
    if lines != [] {
      EntriesAt(lines[1..]);
    }
  }

  lemma LastByKey(conv: Numerals, lines: seq<string>, field: Field)
    requires field != Other
    ensures var k := LastLine(lines, KeyOf(field));
      && Last(Entries(lines), {field}) == k
      && LastNumber(conv, Entries(lines), {field}) == NumberAt(conv, lines, KeyOf(field), k)
      && LastText(Entries(lines), {field}) == TextAt(lines, KeyOf(field), k)
  {
    hide EntryOf, KeyOf, HasKey, Entries;
    EntriesAt(lines);
    forall i | 0 <= i < |lines|
      ensures Entries(lines)[i].field == field <==> HasKey(lines[i], KeyOf(field))
      ensures HasKey(lines[i], KeyOf(field)) ==> Entries(lines)[i].val == lines[i][|KeyOf(field)| + 1..]
    {
      LineByKey(lines[i], field);
    }
  }

  lemma TimeByKey(conv: Numerals, lines: seq<string>, t: int)
    requires IsTimeOf(conv, Entries(lines), t)
    ensures IsTimeOfLines(conv, lines, t)
  {
    hide EntryOf, HasKey, Entries;
    var entries := Entries(lines);
    EntriesAt(lines);
    LastByKey(conv, lines, CpuTime);
    var k := LastLine(lines, "time");
    if k >= 0 {
      LineByKey(lines[k], CpuTime);
    }
    forall i | 0 <= i < |lines|
      ensures entries[i].field == WallTime <==> HasKey(lines[i], "time-wall")
      ensures HasKey(lines[i], "time-wall") ==> Millis(conv, entries[i]) == MillisAt(conv, lines, "time-wall", i)
    {
      LineByKey(lines[i], WallTime);
    }
  }

  lemma MemoryByKey(conv: Numerals, lines: seq<string>)
    ensures var rss, mem := LastLine(lines, "max-rss"), LastLine(lines, "cg-mem");
      LastNumber(conv, Entries(lines), {MaxRss, CgMem}) ==
      if rss > mem then NumberAt(conv, lines, "max-rss", rss) else NumberAt(conv, lines, "cg-mem", mem)
  {
    hide EntryOf, HasKey, Entries, NumberAt, Last;
    EntriesAt(lines);
    LastByKey(conv, lines, MaxRss);
    LastByKey(conv, lines, CgMem);
    LastOfTwo(Entries(lines), MaxRss, CgMem);
  }

  lemma LastOfTwo(entries: seq<Entry>, a: Field, b: Field)
    ensures var j, k := Last(entries, {a}), Last(entries, {b});
      Last(entries, {a, b}) == if j > k then j else k
  {
    hide Last;
  }

  /** The closed form of `parse_meta` on the text of the file: every member of the record comes
      from the last line with its key, `max-rss` and `cg-mem` sharing one member, and the time
      is the maximum of the last `time` and every `time-wall` after it; reading throws exactly
      when a line with a numeric key has no number. */
  lemma MetaFileClosedForm(conv: Numerals, text: string, path: string)
    ensures MetaResult(conv, Some(text), path).Returned? <==> LinesWellFormed(conv, Lines(text))
    ensures MetaResult(conv, Some(text), path).Returned? ==>
              IsRecordOfLines(conv, Lines(text), MetaResult(conv, Some(text), path).value)
  {
    hide Lines, EntryOf, HasKey, Entries, ReadEntries, IsTimeOf, IsTimeOfLines, LastNumber, NumberAt, LinesWellFormed;
    var lines := Lines(text);
    var entries := Entries(lines);
    ReadsIffWellFormed(conv, lines);
    if ReadEntries(conv, entries).Returned? {
      MetaClosedForm(conv, entries);
      TimeByKey(conv, lines, ReadEntries(conv, entries).value.timeMs);
      MemoryByKey(conv, lines);
      LastByKey(conv, lines, ExitCode);
      LastByKey(conv, lines, ExitSignal);
      LastByKey(conv, lines, RawStatus);
      LastByKey(conv, lines, Killed);
    }
  }

  lemma ReadsIffWellFormed(conv: Numerals, lines: seq<string>)
    ensures ReadEntries(conv, Entries(lines)).Returned? <==> LinesWellFormed(conv, lines)
  {
    hide EntryOf, Entries, ReadEntries, LineWellFormed, WellFormed;
    var entries := Entries(lines);
    ThrowsIffMalformed(conv, entries);
    EntriesAt(lines);
    forall i | 0 <= i < |lines| ensures WellFormed(conv, entries[i]) <==> LineWellFormed(conv, lines[i]) {
      WellFormedByKey(conv, lines[i]);
    }
    if forall i :: 0 <= i < |lines| ==> LineWellFormed(conv, lines[i]) {
      assert forall i :: 0 <= i < |entries| ==> WellFormed(conv, entries[i]);
    } else {
      var i :| 0 <= i < |lines| && !LineWellFormed(conv, lines[i]);
      assert !WellFormed(conv, entries[i]);
    }
  }

  lemma WellFormedByKey(conv: Numerals, line: string)
    ensures WellFormed(conv, EntryOf(line)) <==> LineWellFormed(conv, line)
  {
    hide EntryOf, HasKey;
    LineByKey(line, CpuTime);
    LineByKey(line, WallTime);
    LineByKey(line, MaxRss);
    LineByKey(line, CgMem);
    LineByKey(line, ExitCode);
    LineByKey(line, ExitSignal);
  }

  /** A file that is missing reads as a failure of the sandbox, never as a success. */
  lemma MissingMetaFails(conv: Numerals, path: string)
    ensures var r := MetaResult(conv, None, path);
      && r.Returned? && r.value.exitCode == -1 && r.value.status == "XX" && !r.value.timedOut && r.value.signal == 0
      && r.value.timeMs == 0 && r.value.memoryKb == 0 && r.value.stderr == "Cannot read meta file: " + path
  {
  }
}
