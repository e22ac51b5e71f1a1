/** The worker: what it does with one delivered message, and what it stores. */
module Worker {
  import opened Base
  import opened Status
  import opened Boxes
  import opened Messages
  import opened Judging
  import opened Engine
  import opened Database
  import opened OutputCompare

  // ---------- from a judgement to the tables ----------

  function ToDbCase(item: CaseResult): DbCase {
    DbCase(item.testcaseId, item.caseIndex, StatusName(item.status), item.timeMs, item.memoryKb,
           item.input, item.actual, item.expected, item.error)
  }

  function ToDbCases(items: seq<CaseResult>): (cases: seq<DbCase>)
    ensures |cases| == |items|
    ensures forall i :: 0 <= i < |cases| ==> cases[i] == ToDbCase(items[i])
  {
    seq(|items|, i requires 0 <= i < |items| => ToDbCase(items[i]))
  }

  function ToDb(sub: Submission, r: JudgeResult): DbResult {
    DbResult(sub.runId, sub.submissionId, sub.problemId, StatusName(r.status), r.timeMs, r.memoryKb,
             r.error, r.compilerOutput, r.failedIndex, ToDbCases(r.cases))
  }

  predicate IsRun(sub: Submission) {
    sub.taskType == "RUN"
  }

  /** The statements that store the result of a task, and their effect at once. */
  function Script(sub: Submission, r: JudgeResult): seq<Statement> {
    if IsRun(sub) then RunScript(ToDb(sub, r)) else SubmissionScript(ToDb(sub, r))
  }

  function Write(db: Db, sub: Submission, r: JudgeResult): Db {
    if IsRun(sub) then ApplyRun(db, ToDb(sub, r)) else ApplySubmission(db, ToDb(sub, r))
  }

  // ---------- the channel to the broker ----------

  datatype Op = Ack(tag: nat) | NackRequeue(tag: nat)

  class RabbitMQClient {
    const accepts: nat -> bool
    var connected: bool
    var ops: seq<Op>

    constructor (accepts: nat -> bool)
      ensures this.accepts == accepts && connected && ops == []
    {
      this.accepts := accepts;
      connected, ops := true, [];
    }

    method Send(op: Op) returns (ok: bool)
      modifies this
      ensures connected == old(connected)
      ensures ops == if connected then old(ops) + [op] else old(ops)
      ensures ok == (connected && accepts(|old(ops)|))
    {
      if !connected {
        return false;
      }
      ok := accepts(|ops|);
      ops := ops + [op];
    }
  }

  // ---------- one message ----------

  /** How the handling of a message ends. */
  datatype Fate = NeverReturns | LeftByException | Discarded | Stored | SentBack

  /** What the broker is told about a message. */
  function OpsFor(tag: nat, fate: Fate): seq<Op> {
    match fate
    case Discarded | Stored => [Ack(tag)]
    case SentBack => [NackRequeue(tag)]
    case NeverReturns | LeftByException => []
  }

  function AllOps(tags: seq<nat>, fates: seq<Fate>): seq<Op>
    requires |fates| <= |tags|
  {
    if fates == [] then []
    else AllOps(tags, fates[..|fates| - 1]) + OpsFor(tags[|fates| - 1], fates[|fates| - 1])
  }

  predicate Judged(fate: Fate) {
    fate == Stored || fate == SentBack
  }

  predicate Final(fate: Fate) {
    fate == NeverReturns || fate == LeftByException
  }

  function CountJudged(fates: seq<Fate>): nat {
    if fates == [] then 0
    else CountJudged(fates[..|fates| - 1]) + if Judged(fates[|fates| - 1]) then 1 else 0
  }

  /** What becomes of a result: the fate of its message, and the database after it. Query
      number `sent` is the ping; the transaction is written as a whole or not at all, and
      whenever the worker cannot be sure that it is, the message goes back. */
  ghost function Outcome(
    db: Db, server: nat -> Reply, sent: nat, connected: bool, sub: Submission, r: JudgeResult): (Fate, Db)
  {
    var up := connected || server(sent) == Okay;
    var s, n := sent + 1, |Script(sub, r)|;
    (if up && AllOkay(server, s, s + n + 2) then Stored else SentBack,
     if up && AllOkay(server, s, s + n + 1) && server(s + n + 1) != Refused then Write(db, sub, r) else db)
  }

  /** The number of the next query after that. */
  function SentAfter(server: nat -> Reply, sent: nat, connected: bool, n: nat): nat {
    if connected || server(sent) == Okay then sent + 1 + Asked(server, sent + 1, n) else sent + 1
  }

  /** Everything the worker goes on from: the box queue, the boxes, the stored data, and how far
      the conversation with the server is. */
  datatype Stage = Stage(queue: seq<int>, boxes: map<int, Box>, db: Db, sent: nat, connected: bool)
  {
    ghost predicate Ok() {
      forall k :: 0 <= k < |queue| ==> queue[k] in boxes
    }
  }

  /** What becomes of a message: its fate, and where the worker stands afterwards. */
  ghost function Handle(m: Machine, server: nat -> Reply, s: Stage, doc: Option<RawMessage>)
    : (handled: (Fate, Stage))
    requires s.Ok()
    ensures handled.1.Ok()
  {
    if doc.None? || !Complete(doc.value) then (Discarded, s)
    else if s.queue == [] then (NeverReturns, s)
    else
      var sub, b := Decode(doc.value), s.queue[0];
      var (outcome, box) := JudgeOn(m, b, s.boxes[b], sub);
      var judged := s.(queue := s.queue[1..], boxes := s.boxes[b := box]);
      match outcome
      case Threw => (LeftByException, judged)
      case Returned(r) =>
        var (fate, db) := Outcome(s.db, server, s.sent, s.connected, sub, r);
        (fate, judged.(queue := s.queue[1..] + [b], db := db,
                       sent := SentAfter(server, s.sent, s.connected, |Script(sub, r)|),
                       connected := s.connected || server(s.sent) == Okay))
  }

  /** The box that was used, if any, is at the back of the queue unless an exception kept it. */
  lemma HandleTurns(m: Machine, server: nat -> Reply, s: Stage, doc: Option<RawMessage>)
    requires s.Ok()
    ensures var (fate, next) := Handle(m, server, s, doc);
      && next.Ok()
      && (Judged(fate) || fate == LeftByException ==> s.queue != [])
      && next.queue == match fate
                       case Discarded | NeverReturns => s.queue
                       case LeftByException => s.queue[1..]
                       case Stored | SentBack => s.queue[1..] + [s.queue[0]]
  {
    hide JudgeOn, Write, Script, Complete, Decode, SentAfter, AllOkay;
  }

  /** What becomes of the messages of a batch, one after the other, until one is never done
      with. */
  ghost function HandleAll(m: Machine, server: nat -> Reply, s: Stage, docs: seq<Option<RawMessage>>)
    : (seq<Fate>, Stage)
    requires s.Ok()
    decreases |docs|
  {
    if docs == [] then ([], s)
    else
      var (fate, next) := Handle(m, server, s, docs[0]);
      if Final(fate) then ([fate], next)
      else
        var (fates, end) := HandleAll(m, server, next, docs[1..]);
        ([fate] + fates, end)
  }

  lemma HandleOneMore(
    m: Machine, server: nat -> Reply, s: Stage, docs: seq<Option<RawMessage>>, i: nat, fates: seq<Fate>)
    requires s.Ok() && i < |docs|
    ensures var (fate, next) := Handle(m, server, s, docs[i]);
      && next.Ok()
      && var (more, end) := HandleAll(m, server, s, docs[i..]);
      (fates + more, end) ==
      if Final(fate) then (fates + [fate], next)
      else
        var (rest, end') := HandleAll(m, server, next, docs[i + 1..]);
        ((fates + [fate]) + rest, end')
  {
    hide Handle;
    HandleTurns(m, server, s, docs[i]);
    var (fate, next) := Handle(m, server, s, docs[i]);
    assert docs[i..][0] == docs[i] && docs[i..][1..] == docs[i + 1..];
    if !Final(fate) {
      ConcatAssoc(fates, [fate], HandleAll(m, server, next, docs[i + 1..]).0);
    }
  }

  // ---------- what a stored message leaves behind ----------

  /** The texts of the columns that hold a verdict. */
  ghost predicate IsStatusText(text: string, status: JudgeStatus) {
    match status
    case Accepted => text == "ACCEPTED"
    case WrongAnswer => text == "WRONG_ANSWER"
    case TimeLimitExceeded => text == "TIME_LIMIT_EXCEEDED"
    case MemoryLimitExceeded => text == "MEMORY_LIMIT_EXCEEDED"
    case RuntimeError => text == "RUNTIME_ERROR"
    case CompilationError => text == "COMPILE_ERROR"
    case _ => true
  }

  lemma StatusTexts(status: JudgeStatus)
    ensures IsStatusText(StatusName(status), status)
  {
  }

  /** A text column: NULL stands for the empty text and for no other. */
  predicate IsColumn(column: Option<string>, text: string) {
    if text == "" then column.None? else column == Some(text)
  }

  /** Row by row the rows of `owner` are the recorded cases, in order. */
  ghost predicate AreStored(items: seq<CaseResult>, owner: nat, rows: seq<StoredCase>) {
    |rows| == |items| && forall i :: 0 <= i < |rows| ==> IsStored(items[i], owner, rows[i])
  }

  ghost predicate IsStored(item: CaseResult, owner: nat, row: StoredCase) {
    && row.owner == owner
    && row.testcaseId == (if item.testcaseId == 0 then None else Some(item.testcaseId))
    && row.caseIndex == item.caseIndex && IsStatusText(row.status, item.status)
    && row.timeMs == item.timeMs && row.memoryKb == item.memoryKb
    && IsColumn(row.input, item.input) && IsColumn(row.actual, item.actual)
    && IsColumn(row.expected, item.expected) && IsColumn(row.error, item.error)
  }

  ghost predicate IsSubmissionRecord(r: JudgeResult, row: SubmissionRow) {
    && IsStatusText(row.status, r.status) && row.score == (if r.status == Accepted then 100 else 0)
    && row.timeMs == r.timeMs && row.memoryKb == r.memoryKb
    && IsColumn(row.compileMessage, r.compilerOutput) && IsColumn(row.runtimeMessage, r.error)
  }

  ghost predicate IsRunRecord(r: JudgeResult, row: RunRow) {
    && IsStatusText(row.status, r.status) && row.timeMs == r.timeMs && row.memoryKb == r.memoryKb
    && IsColumn(row.compileMessage, r.compilerOutput) && IsColumn(row.runtimeMessage, r.error)
  }

  lemma CasesAreStored(owner: nat, items: seq<CaseResult>)
    ensures AreStored(items, owner, StoreAll(owner, ToDbCases(items)))
  {
    hide StatusName, IsStatusText;
    forall i | 0 <= i < |items| ensures IsStored(items[i], owner, Store(owner, ToDbCase(items[i]))) {
      StatusTexts(items[i].status);
    }
  }

  lemma RecordsOf(sub: Submission, r: JudgeResult)
    ensures IsSubmissionRecord(r, SubmissionRowOf(ToDb(sub, r))) && IsRunRecord(r, RunRowOf(ToDb(sub, r)))
  {
    hide StatusName, IsStatusText, ToDbCases;
    StatusTexts(r.status);
    NamedAccepted(r.status);
  }

  function IdOf(member: Member<nat>): nat {
    match member case Present(id) => id case _ => 0
  }

  /** A stored message is one that was judged, in the box at the front of the queue. */
  lemma StoredWasJudged(m: Machine, server: nat -> Reply, s: Stage, raw: RawMessage)
    requires s.Ok() && Handle(m, server, s, Some(raw)).0 == Stored
    ensures Complete(raw) && s.queue != []
    ensures var outcome := JudgeOn(m, s.queue[0], s.boxes[s.queue[0]], Decode(raw)).0;
      outcome.Returned? && Handle(m, server, s, Some(raw)).1.db == Write(s.db, Decode(raw), outcome.value)
  {
    hide JudgeOn, Complete, Decode, Script, Write, SentAfter;
  }

  /** What is stored for an ordinary message, read off its document: the row of the submission
      it names and the case rows of that submission are the judged record, the counter of its
      problem has moved if it was accepted, and nothing else has changed; `other` stands for any
      submission and problem. */
  lemma SubmissionIsStored(m: Machine, server: nat -> Reply, s: Stage, raw: RawMessage, other: nat)
    requires s.Ok() && Handle(m, server, s, Some(raw)).0 == Stored
    requires raw.taskType != Present("RUN")
    ensures Complete(raw) && s.queue != []
    ensures JudgeOn(m, s.queue[0], s.boxes[s.queue[0]], Decode(raw)).0.Returned?
    ensures var r := JudgeOn(m, s.queue[0], s.boxes[s.queue[0]], Decode(raw)).0.value;
      var id, db := IdOf(raw.submissionId), Handle(m, server, s, Some(raw)).1.db;
      && db.submissions.Keys == s.db.submissions.Keys && db.acceptedCounts.Keys == s.db.acceptedCounts.Keys
      && (id in db.submissions ==> IsSubmissionRecord(r, db.submissions[id]))
      && AreStored(r.cases, id, RowsOf(db.caseRows, id))
      && (other != id ==>
            && (other in db.submissions ==> db.submissions[other] == s.db.submissions[other])
            && RowsOf(db.caseRows, other) == RowsOf(s.db.caseRows, other))
      && (other in db.acceptedCounts ==>
            db.acceptedCounts[other] == s.db.acceptedCounts[other] +
            if r.status == Accepted && other != 0 && raw.problemId == Present(other) then 1 else 0)
      && db.codeRuns == s.db.codeRuns && db.runCaseRows == s.db.runCaseRows
  {
    StoredWasJudged(m, server, s, raw);
    hide JudgeOn, Handle, SubmissionRowOf, StoreAll, Select, ApplySubmission, ToDbCases, IsSubmissionRecord, AreStored,
      StatusName;
    var sub, r := Decode(raw), JudgeOn(m, s.queue[0], s.boxes[s.queue[0]], Decode(raw)).0.value;
    SubmissionTables(s.db, ToDb(sub, r), sub.submissionId);
    SubmissionTables(s.db, ToDb(sub, r), other);
    CasesAreStored(sub.submissionId, r.cases);
    RecordsOf(sub, r);
    NamedAccepted(r.status);
  }

  /** Likewise for a run of code. */
  lemma RunIsStored(m: Machine, server: nat -> Reply, s: Stage, raw: RawMessage, other: nat)
    requires s.Ok() && Handle(m, server, s, Some(raw)).0 == Stored
    requires raw.taskType == Present("RUN")
    ensures Complete(raw) && s.queue != []
    ensures JudgeOn(m, s.queue[0], s.boxes[s.queue[0]], Decode(raw)).0.Returned?
    ensures var r := JudgeOn(m, s.queue[0], s.boxes[s.queue[0]], Decode(raw)).0.value;
      var id, db := IdOf(raw.runId), Handle(m, server, s, Some(raw)).1.db;
      && db.codeRuns.Keys == s.db.codeRuns.Keys
      && (id in db.codeRuns ==> IsRunRecord(r, db.codeRuns[id]))
      && AreStored(r.cases, id, RowsOf(db.runCaseRows, id))
      && (other != id ==>
            && (other in db.codeRuns ==> db.codeRuns[other] == s.db.codeRuns[other])
            && RowsOf(db.runCaseRows, other) == RowsOf(s.db.runCaseRows, other))
      && db.submissions == s.db.submissions && db.caseRows == s.db.caseRows
      && db.acceptedCounts == s.db.acceptedCounts
  {
    StoredWasJudged(m, server, s, raw);
    hide JudgeOn, Handle, RunRowOf, StoreAll, Select, ApplyRun, ToDbCases, IsRunRecord, AreStored, StatusName;
    var sub, r := Decode(raw), JudgeOn(m, s.queue[0], s.boxes[s.queue[0]], Decode(raw)).0.value;
    RunTables(s.db, ToDb(sub, r), sub.runId);
    RunTables(s.db, ToDb(sub, r), other);
    CasesAreStored(sub.runId, r.cases);
    RecordsOf(sub, r);
  }

  /** The loop of `on_message` that fills the record for the database. */
  method Convert(sub: Submission, result: JudgeResult) returns (dbResult: DbResult)
    ensures dbResult == ToDb(sub, result)
  {
    hide StatusName;
    var cases: seq<DbCase> := [];
    for i := 0 to |result.cases|
      invariant cases == ToDbCases(result.cases[..i])
    {
      var item := result.cases[i];
      cases := cases + [DbCase(item.testcaseId, item.caseIndex, StatusName(item.status), item.timeMs, item.memoryKb,
                               item.input, item.actual, item.expected, item.error)];
    }
    assert result.cases[..|result.cases|] == result.cases;
    dbResult := DbResult(sub.runId, sub.submissionId, sub.problemId, StatusName(result.status),
                         result.timeMs, result.memoryKb, result.error, result.compilerOutput,
                         result.failedIndex, cases);
  }

  lemma NothingYet(tags: seq<nat>, queue: seq<int>)
    ensures AllOps(tags, []) == [] && CountJudged([]) == 0
    ensures queue != [] ==> QueueAfter(queue, 0) == queue
  {
  }

  lemma AllOpsOneMore(tags: seq<nat>, fates: seq<Fate>, fate: Fate)
    requires |fates| < |tags|
    ensures AllOps(tags, fates + [fate]) == AllOps(tags, fates) + OpsFor(tags[|fates|], fate)
  {
    assert (fates + [fate])[..|fates|] == fates;
  }

  lemma TurnsOneMore(queue: seq<int>, fates: seq<Fate>, fate: Fate)
    requires queue != []
    ensures var q := QueueAfter(queue, CountJudged(fates));
      QueueAfter(queue, CountJudged(fates + [fate])) == if Judged(fate) then q[1..] + [q[0]] else q
  {
    assert (fates + [fate])[..|fates|] == fates;
  }

  class Worker {
    const engine: JudgeEngine
    const db: MySQLClient
    const mq: RabbitMQClient

    ghost predicate Valid()
      reads engine.pool, engine.disk, db
    {
      engine.Valid() && db.open == None
    }

    constructor (engine: JudgeEngine, db: MySQLClient, mq: RabbitMQClient)
      ensures this.engine == engine && this.db == db && this.mq == mq
    {
      this.engine, this.db, this.mq := engine, db, mq;
    }

    ghost function Now(): Stage
      reads engine.pool, engine.disk, db
    {
      Stage(engine.pool.available, engine.disk.boxes, db.committed, db.sent, db.connected)
    }

    /** `ping`: it can only turn a missing connection into one. */
    method Ping()
      modifies db
      ensures db.committed == old(db.committed) && db.open == old(db.open) && db.sent == old(db.sent) + 1
      ensures db.connected == (old(db.connected) || db.server(old(db.sent)) == Okay)
    {
      if !db.connected && db.server(db.sent) == Okay {
        db.connected := true;
      }
      db.sent := db.sent + 1;
    }

    /** The part of `on_message` that talks to the database. */
    method WriteResult(sub: Submission, result: JudgeResult) returns (updated: bool)
      requires db.open == None
      modifies db
      ensures db.open == None
      ensures (if updated then Stored else SentBack, db.committed) ==
              Outcome(old(db.committed), db.server, old(db.sent), old(db.connected), sub, result)
      ensures db.connected == (old(db.connected) || db.server(old(db.sent)) == Okay)
      ensures db.sent == SentAfter(db.server, old(db.sent), old(db.connected), |Script(sub, result)|)
    {
      hide ApplyRun, ApplySubmission, RunScript, SubmissionScript, AllOkay, ToDb, Asked;
      var dbResult := Convert(sub, result);
      Ping();
      if sub.taskType == "RUN" {
        updated := db.UpdateCodeRun(dbResult);
      } else {
        updated := db.UpdateSubmission(dbResult);
      }
    }

    /** `on_message`: the fate of the message and where the worker stands afterwards are those
        of `Handle`, and the broker is told what the fate says. */
    method OnMessage(tag: nat, doc: Option<RawMessage>) returns (fate: Fate)
      requires Valid()
      modifies engine.pool, engine.disk, db, mq
      ensures Valid() && mq.connected == old(mq.connected)
      ensures old(Now()).Ok() && (fate, Now()) == Handle(engine.disk.m, db.server, old(Now()), doc)
      ensures mq.ops == old(mq.ops) + (if old(mq.connected) then OpsFor(tag, fate) else [])
    {
      hide JudgeOn, Outcome, Complete, Decode;
      var parsed := ParseMessage(doc);
      if parsed.None? {
        var _ := mq.Send(Ack(tag));
        return Discarded;
      }
      var sub := parsed.value;
      var call := engine.Judge(sub);
      if call.Waits? {
        return NeverReturns;
      }
      if call.outcome.Threw? {
        assert old(engine.pool.available)[1..] + [] == old(engine.pool.available)[1..];
        return LeftByException;
      }
      var updated := WriteResult(sub, call.outcome.value);
      if !updated {
        var _ := mq.Send(NackRequeue(tag));
        return SentBack;
      }
      var _ := mq.Send(Ack(tag));
      return Stored;
    }

    /** The body of the consume loop over a batch of deliveries: it goes on until a message is
        never done with. Fates, boxes and stored data are those of `HandleAll`, each message is
        answered once, and the box queue has turned once for each message judged. */
    method Consume(tags: seq<nat>, docs: seq<Option<RawMessage>>) returns (fates: seq<Fate>)
      requires Valid() && mq.connected && |docs| == |tags|
      modifies engine.pool, engine.disk, db, mq
      ensures Valid() && |fates| <= |tags|
      ensures old(Now()).Ok() && (fates, Now()) == HandleAll(engine.disk.m, db.server, old(Now()), docs)
      ensures |fates| < |tags| ==> fates != [] && Final(fates[|fates| - 1])
      ensures forall i :: 0 <= i < |fates| - 1 ==> !Final(fates[i])
      ensures mq.ops == old(mq.ops) + AllOps(tags, fates)
      ensures old(engine.pool.available) != [] && (fates == [] || !Final(fates[|fates| - 1])) ==>
                engine.pool.available == QueueAfter(old(engine.pool.available), CountJudged(fates))
    {
      hide Handle, HandleAll, AllOps, OpsFor, CountJudged, QueueAfter;
      fates := [];
      NothingYet(tags, engine.pool.available);
      ghost var start := Now();
      ghost var whole := HandleAll(engine.disk.m, db.server, start, docs);
      assert docs[0..] == docs && [] + whole.0 == whole.0;
      for i := 0 to |tags|
        invariant Valid() && mq.connected && |fates| == i
        invariant forall j :: 0 <= j < i ==> !Final(fates[j])
        invariant Continues(engine.disk.m, db.server, Now(), docs, i, fates, whole)
        invariant mq.ops == old(mq.ops) + AllOps(tags, fates)
        invariant start.queue != [] ==> engine.pool.available == QueueAfter(start.queue, CountJudged(fates))
      {
        HandleOneMore(engine.disk.m, db.server, Now(), docs, i, fates);
        HandleTurns(engine.disk.m, db.server, Now(), docs[i]);
        var fate := OnMessage(tags[i], docs[i]);
        AllOpsOneMore(tags, fates, fate);
        if start.queue != [] {
          TurnsOneMore(start.queue, fates, fate);
        }
        ConcatAssoc(old(mq.ops), AllOps(tags, fates), OpsFor(tags[i], fate));
        fates := fates + [fate];
        if Final(fate) {
          return;
        }
      }
      NothingLeft(engine.disk.m, db.server, Now(), docs, fates);
    }
  }

  /** The fates so far and those of the messages left are the fates of the whole batch. */
  ghost predicate Continues(
    m: Machine, server: nat -> Reply, s: Stage, docs: seq<Option<RawMessage>>, i: nat, fates: seq<Fate>,
    whole: (seq<Fate>, Stage))
    requires i <= |docs|
  {
    s.Ok() &&
    var (more, end) := HandleAll(m, server, s, docs[i..]);
    (fates + more, end) == whole
  }

  lemma NothingLeft(m: Machine, server: nat -> Reply, s: Stage, docs: seq<Option<RawMessage>>, fates: seq<Fate>)
    requires s.Ok()
    ensures HandleAll(m, server, s, docs[|docs|..]) == ([], s) && fates + [] == fates
  {
  }

  // ---------- what is stored ----------

  const COMPILE_ERROR := "COMPILE_ERROR"
  const WRONG_ANSWER := "WRONG_ANSWER"

  /** The text of a column, NULL standing for the empty text. */
  function Text(column: Option<string>): string {
    match column case Some(text) => text case None => ""
  }

  /** A stored case row tells which test it is about, and its stored output bears out its
      status. */
  ghost predicate StoredMatches(tc: TestCase, i: nat, row: StoredCase) {
    && row.testcaseId == NullableId(tc.testcaseId)
    && row.caseIndex == (if tc.caseIndex > 0 then tc.caseIndex else i + 1)
    && Text(row.input) == tc.input && Text(row.expected) == tc.expected
    && (row.status == ACCEPTED ==> SameOutput(tc.expected, Text(row.actual)))
    && (row.status == WRONG_ANSWER ==> !SameOutput(tc.expected, Text(row.actual)))
  }

  /** The stored record of a submission with the given tests explains itself. */
  ghost predicate RecordConsistent(row: SubmissionRow, rows: seq<StoredCase>, tests: seq<TestCase>) {
    && (row.score == 100 <==> row.status == ACCEPTED)
    && (row.score == 0 || row.score == 100)
    && (row.status == ACCEPTED <==>
          row.status != COMPILE_ERROR && |rows| == |tests| &&
          forall i :: 0 <= i < |rows| ==> rows[i].status == ACCEPTED)
    && IsPeak(row.timeMs, seq(|rows|, i requires 0 <= i < |rows| => rows[i].timeMs))
    && IsPeak(row.memoryKb, seq(|rows|, i requires 0 <= i < |rows| => rows[i].memoryKb))
    && (row.status == COMPILE_ERROR ==> rows == [] && row.compileMessage == row.runtimeMessage)
    && (row.status != COMPILE_ERROR ==> row.compileMessage == None)
    && (row.status != ACCEPTED && row.status != COMPILE_ERROR ==>
          && 0 < |rows|
          && rows[|rows| - 1].status == row.status && rows[|rows| - 1].error == row.runtimeMessage
          && forall i :: 0 <= i < |rows| - 1 ==> rows[i].status == ACCEPTED)
    && |rows| <= |tests|
    && forall i :: 0 <= i < |rows| ==> StoredMatches(tests[i], i, rows[i])
  }

  /** The maximum of 0 and the numbers. */
  ghost predicate IsPeak(peak: int, ns: seq<int>) {
    0 <= peak && (forall i :: 0 <= i < |ns| ==> ns[i] <= peak) && (peak == 0 || peak in ns)
  }

  lemma NamedAccepted(status: JudgeStatus)
    ensures StatusName(status) == ACCEPTED <==> status == Accepted
    ensures StatusName(status) == COMPILE_ERROR <==> status == CompilationError
    ensures StatusName(status) == WRONG_ANSWER <==> status == WrongAnswer
  {
    if StatusName(status) == ACCEPTED {
      NamesAreDistinct(status, Accepted);
    }
    if StatusName(status) == COMPILE_ERROR {
      NamesAreDistinct(status, CompilationError);
    }
    if StatusName(status) == WRONG_ANSWER {
      NamesAreDistinct(status, WrongAnswer);
    }
  }

  lemma NullableText(text: string)
    ensures Text(Nullable(text)) == text
  {
  }

  lemma RowIsStored(tc: TestCase, i: nat, item: CaseResult, owner: nat)
    requires RowMatches(tc, i, item)
    ensures StoredMatches(tc, i, Store(owner, ToDbCase(item)))
  {
    hide StatusName, Nullable, SameOutput, Text;
    NamedAccepted(item.status);
    NullableText(item.input);
    NullableText(item.expected);
    NullableText(item.actual);
  }

  /** An evidenced verdict is stored as a record that explains itself. */
  lemma EvidenceIsStored(sub: Submission, r: JudgeResult)
    requires Evidenced(sub.testcases, r)
    ensures var d := ToDb(sub, r);
      RecordConsistent(SubmissionRowOf(d), StoreAll(d.submissionId, d.cases), sub.testcases)
  {
    hide StatusName, Nullable, NullableId, StoredMatches, RowMatches, IsPeak, ArePeaks, ToDbCase, Store;
    var d := ToDb(sub, r);
    var rows := StoreAll(d.submissionId, d.cases);
    NamedAccepted(r.status);
    forall i | 0 <= i < |rows|
      ensures rows[i].status == ACCEPTED <==> r.cases[i].status == Accepted
      ensures rows[i].status == StatusName(r.cases[i].status)
      ensures rows[i].timeMs == r.cases[i].timeMs && rows[i].memoryKb == r.cases[i].memoryKb
      ensures rows[i].error == Nullable(r.cases[i].error)
      ensures StoredMatches(sub.testcases[i], i, rows[i])
    {
      NamedAccepted(r.cases[i].status);
      StoredFields(d.submissionId, r.cases[i]);
      RowIsStored(sub.testcases[i], i, r.cases[i], d.submissionId);
    }
    NoMessage();
    PeaksAreStored(r, rows);
  }

  lemma StoredFields(owner: nat, item: CaseResult)
    ensures var row := Store(owner, ToDbCase(item));
      && row.status == StatusName(item.status) && row.error == Nullable(item.error)
      && row.timeMs == item.timeMs && row.memoryKb == item.memoryKb
  {
    hide StatusName, Nullable;
  }

  lemma NoMessage()
    ensures Nullable("") == None
  {
  }

  lemma PeaksAreStored(r: JudgeResult, rows: seq<StoredCase>)
    requires ArePeaks(r.cases, r.timeMs, r.memoryKb) && |rows| == |r.cases|
    requires forall i :: 0 <= i < |rows| ==>
               rows[i].timeMs == r.cases[i].timeMs && rows[i].memoryKb == r.cases[i].memoryKb
    ensures IsPeak(r.timeMs, seq(|rows|, i requires 0 <= i < |rows| => rows[i].timeMs))
    ensures IsPeak(r.memoryKb, seq(|rows|, i requires 0 <= i < |rows| => rows[i].memoryKb))
  {
    var times := seq(|rows|, i requires 0 <= i < |rows| => rows[i].timeMs);
    var memories := seq(|rows|, i requires 0 <= i < |rows| => rows[i].memoryKb);
    if r.timeMs != 0 {
      var j :| 0 <= j < |rows| && r.cases[j].timeMs == r.timeMs;
      assert times[j] == r.timeMs;
    }
    if r.memoryKb != 0 {
      var j :| 0 <= j < |rows| && r.cases[j].memoryKb == r.memoryKb;
      assert memories[j] == r.memoryKb;
    }
  }
}
