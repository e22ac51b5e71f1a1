/** The result tables, the statements that write them, and the transactions of
    `MySQLClient`. */
module Database {
  import opened Base

  // ---------- tables ----------

  /** A text column: `None` is SQL's NULL. */
  datatype SubmissionRow = SubmissionRow(
    status: string, score: int, timeMs: int, memoryKb: int,
    compileMessage: Option<string>, runtimeMessage: Option<string>)

  datatype RunRow = RunRow(
    status: string, timeMs: int, memoryKb: int,
    compileMessage: Option<string>, runtimeMessage: Option<string>)

  /** A row of `fs_judge_case_result` or `fs_code_run_case_result`, without its row id. */
  datatype StoredCase = StoredCase(
    owner: nat, testcaseId: Option<nat>, caseIndex: int, status: string, timeMs: int, memoryKb: int,
    input: Option<string>, actual: Option<string>, expected: Option<string>, error: Option<string>)

  /** `fs_submission`, `fs_judge_case_result` in insertion order, the `accepted_count` of
      `fs_problem`, `fs_code_run`, and `fs_code_run_case_result` in insertion order. */
  datatype Db = Db(
    submissions: map<nat, SubmissionRow>,
    caseRows: seq<StoredCase>,
    acceptedCounts: map<nat, int>,
    codeRuns: map<nat, RunRow>,
    runCaseRows: seq<StoredCase>)

  // ---------- results handed to the client ----------

  datatype DbCase = DbCase(
    testcaseId: nat, caseIndex: int, status: string, timeMs: int, memoryKb: int,
    input: string, actual: string, expected: string, error: string)

  datatype DbResult = DbResult(
    runId: nat, submissionId: nat, problemId: nat, status: string, timeMs: int, memoryKb: int,
    error: string, compilerOutput: string, failedTestcase: int, cases: seq<DbCase>)

  const ACCEPTED := "ACCEPTED"

  /** `nullable_sql`. */
  function Nullable(text: string): Option<string> {
    if text == "" then None else Some(text)
  }

  function NullableId(id: nat): Option<nat> {
    if id == 0 then None else Some(id)
  }

  function Store(owner: nat, item: DbCase): StoredCase {
    StoredCase(owner, NullableId(item.testcaseId), item.caseIndex, item.status, item.timeMs, item.memoryKb,
               Nullable(item.input), Nullable(item.actual), Nullable(item.expected), Nullable(item.error))
  }

  function StoreAll(owner: nat, items: seq<DbCase>): (rows: seq<StoredCase>)
    ensures |rows| == |items|
    ensures forall i :: 0 <= i < |rows| ==> rows[i] == Store(owner, items[i])
  {
    seq(|items|, i requires 0 <= i < |items| => Store(owner, items[i]))
  }

  function SubmissionRowOf(r: DbResult): SubmissionRow {
    SubmissionRow(r.status, if r.status == ACCEPTED then 100 else 0, r.timeMs, r.memoryKb,
                  Nullable(r.compilerOutput), Nullable(r.error))
  }

  function RunRowOf(r: DbResult): RunRow {
    RunRow(r.status, r.timeMs, r.memoryKb, Nullable(r.compilerOutput), Nullable(r.error))
  }

  // ---------- statements ----------

  datatype Statement =
    | UpdateSubmissionRow(id: nat, row: SubmissionRow)
    | DeleteCases(id: nat)
    | InsertCase(stored: StoredCase)
    | BumpAcceptedCount(problemId: nat)
    | UpdateRunRow(id: nat, run: RunRow)
    | DeleteRunCases(id: nat)
    | InsertRunCase(stored: StoredCase)

  /** The rows that belong to `owner` (`mine`) or to the others (`!mine`), in order. */
  function Select(rows: seq<StoredCase>, owner: nat, mine: bool): seq<StoredCase> {
    if rows == [] then []
    else if (rows[0].owner == owner) == mine then [rows[0]] + Select(rows[1..], owner, mine)
    else Select(rows[1..], owner, mine)
  }

  function Without(rows: seq<StoredCase>, owner: nat): seq<StoredCase> {
    Select(rows, owner, false)
  }

  function RowsOf(rows: seq<StoredCase>, owner: nat): seq<StoredCase> {
    Select(rows, owner, true)
  }

  /** A statement that succeeds; an UPDATE whose WHERE clause matches no row changes nothing. */
  function Exec(db: Db, stmt: Statement): Db {
    match stmt
    case UpdateSubmissionRow(id, row) =>
      if id in db.submissions then db.(submissions := db.submissions[id := row]) else db
    case DeleteCases(id) => db.(caseRows := Without(db.caseRows, id))
    case InsertCase(stored) => db.(caseRows := db.caseRows + [stored])
    case BumpAcceptedCount(p) =>
      if p in db.acceptedCounts then db.(acceptedCounts := db.acceptedCounts[p := db.acceptedCounts[p] + 1]) else db
    case UpdateRunRow(id, run) => if id in db.codeRuns then db.(codeRuns := db.codeRuns[id := run]) else db
    case DeleteRunCases(id) => db.(runCaseRows := Without(db.runCaseRows, id))
    case InsertRunCase(stored) => db.(runCaseRows := db.runCaseRows + [stored])
  }

  function ExecAll(db: Db, stmts: seq<Statement>): Db {
    if stmts == [] then db else Exec(ExecAll(db, stmts[..|stmts| - 1]), stmts[|stmts| - 1])
  }

  function Inserts(owner: nat, items: seq<DbCase>): (stmts: seq<Statement>)
    ensures |stmts| == |items|
    ensures forall i :: 0 <= i < |stmts| ==> stmts[i] == InsertCase(Store(owner, items[i]))
  {
    seq(|items|, i requires 0 <= i < |items| => InsertCase(Store(owner, items[i])))
  }

  function RunInserts(owner: nat, items: seq<DbCase>): (stmts: seq<Statement>)
    ensures |stmts| == |items|
    ensures forall i :: 0 <= i < |stmts| ==> stmts[i] == InsertRunCase(Store(owner, items[i]))
  {
    seq(|items|, i requires 0 <= i < |items| => InsertRunCase(Store(owner, items[i])))
  }

  predicate CountsAsAccepted(r: DbResult) {
    r.status == ACCEPTED && r.problemId != 0
  }

  /** The statements between START TRANSACTION and COMMIT of `update_submission`. */
  function SubmissionScript(r: DbResult): seq<Statement> {
    [UpdateSubmissionRow(r.submissionId, SubmissionRowOf(r)), DeleteCases(r.submissionId)] +
    Inserts(r.submissionId, r.cases) +
    (if CountsAsAccepted(r) then [BumpAcceptedCount(r.problemId)] else [])
  }

  /** Likewise of `update_code_run`. */
  function RunScript(r: DbResult): seq<Statement> {
    [UpdateRunRow(r.runId, RunRowOf(r)), DeleteRunCases(r.runId)] + RunInserts(r.runId, r.cases)
  }

  // ---------- the transactions as one-shot updates ----------

  /** The effect of a whole `update_submission`, stated on the tables at once. */
  function ApplySubmission(db: Db, r: DbResult): Db {
    db.(submissions :=
          if r.submissionId in db.submissions then db.submissions[r.submissionId := SubmissionRowOf(r)]
          else db.submissions,
        caseRows := Without(db.caseRows, r.submissionId) + StoreAll(r.submissionId, r.cases),
        acceptedCounts :=
          if CountsAsAccepted(r) && r.problemId in db.acceptedCounts then
            db.acceptedCounts[r.problemId := db.acceptedCounts[r.problemId] + 1]
          else db.acceptedCounts)
  }

  function ApplyRun(db: Db, r: DbResult): Db {
    db.(codeRuns := if r.runId in db.codeRuns then db.codeRuns[r.runId := RunRowOf(r)] else db.codeRuns,
        runCaseRows := Without(db.runCaseRows, r.runId) + StoreAll(r.runId, r.cases))
  }

  lemma SubmissionStatements(r: DbResult)
    ensures |SubmissionScript(r)| == 2 + |r.cases| + (if CountsAsAccepted(r) then 1 else 0)
  {
    hide SubmissionRowOf, Store;
  }

  lemma RunStatements(r: DbResult)
    ensures |RunScript(r)| == 2 + |r.cases|
  {
    hide RunRowOf, Store;
  }

  lemma ExecOneMore(db: Db, stmts: seq<Statement>, k: nat)
    requires k < |stmts|
    ensures ExecAll(db, stmts[..k + 1]) == Exec(ExecAll(db, stmts[..k]), stmts[k])
  {
    assert stmts[..k + 1][..k] == stmts[..k];
  }

  lemma ExecNothing(db: Db, stmts: seq<Statement>)
    ensures ExecAll(db, stmts[..0]) == db
  {
  }

  lemma {:induction false} ExecJoin(db: Db, a: seq<Statement>, b: seq<Statement>)
    ensures ExecAll(db, a + b) == ExecAll(ExecAll(db, a), b)
  {
    hide Exec;
    if b == [] {
      assert a + b == a;
    } else {
      ExecJoin(db, a, b[..|b| - 1]);
      InitOfConcat(a, b);
    }
  }

  lemma ExecOne(db: Db, stmt: Statement)
    ensures ExecAll(db, [stmt]) == Exec(db, stmt)
  {
    hide Exec;
    assert [stmt][..0] == [];
    assert ExecAll(db, []) == db;
  }

  lemma ExecTwo(db: Db, first: Statement, second: Statement)
    ensures ExecAll(db, [first, second]) == Exec(Exec(db, first), second)
  {
    hide Exec, ExecAll;
    assert [first, second] == [first] + [second];
    ExecJoin(db, [first], [second]);
    ExecOne(db, first);
    ExecOne(Exec(db, first), second);
  }

  lemma {:induction false} ExecInserts(db: Db, owner: nat, items: seq<DbCase>, k: nat)
    requires k <= |items|
    ensures ExecAll(db, Inserts(owner, items)[..k]) == db.(caseRows := db.caseRows + StoreAll(owner, items)[..k])
  {
    hide Store, Inserts, StoreAll, ExecAll;
    var rows := StoreAll(owner, items);
    if k == 0 {
      assert db.caseRows + rows[..0] == db.caseRows;
      ExecNothing(db, Inserts(owner, items));
    } else {
      ExecInserts(db, owner, items, k - 1);
      ExecOneMore(db, Inserts(owner, items), k - 1);
      assert rows[..k] == rows[..k - 1] + [rows[k - 1]];
      ConcatAssoc(db.caseRows, rows[..k - 1], [rows[k - 1]]);
    }
  }

  lemma {:induction false} ExecRunInserts(db: Db, owner: nat, items: seq<DbCase>, k: nat)
    requires k <= |items|
    ensures ExecAll(db, RunInserts(owner, items)[..k])
         == db.(runCaseRows := db.runCaseRows + StoreAll(owner, items)[..k])
  {
    hide Store, RunInserts, StoreAll, ExecAll;
    var rows := StoreAll(owner, items);
    if k == 0 {
      assert db.runCaseRows + rows[..0] == db.runCaseRows;
      ExecNothing(db, RunInserts(owner, items));
    } else {
      ExecRunInserts(db, owner, items, k - 1);
      ExecOneMore(db, RunInserts(owner, items), k - 1);
      assert rows[..k] == rows[..k - 1] + [rows[k - 1]];
      ConcatAssoc(db.runCaseRows, rows[..k - 1], [rows[k - 1]]);
    }
  }

  /** Statement by statement or at once: the same database. */
  lemma SubmissionScriptIsOneShot(db: Db, r: DbResult)
    ensures ExecAll(db, SubmissionScript(r)) == ApplySubmission(db, r)
    ensures var db1 := Exec(db, UpdateSubmissionRow(r.submissionId, SubmissionRowOf(r)));
      var db3 := ExecAll(Exec(db1, DeleteCases(r.submissionId)), Inserts(r.submissionId, r.cases));
      (if CountsAsAccepted(r) then Exec(db3, BumpAcceptedCount(r.problemId)) else db3) == ApplySubmission(db, r)
  {
    hide SubmissionRowOf, Store, Select, StoreAll, ExecAll, Inserts;
    var head := [UpdateSubmissionRow(r.submissionId, SubmissionRowOf(r)), DeleteCases(r.submissionId)];
    var inserts := Inserts(r.submissionId, r.cases);
    var bump := BumpAcceptedCount(r.problemId);
    var tail := if CountsAsAccepted(r) then [bump] else [];
    ExecJoin(db, head + inserts, tail);
    ExecJoin(db, head, inserts);
    ExecTwo(db, head[0], head[1]);
    ExecInserts(ExecAll(db, head), r.submissionId, r.cases, |r.cases|);
    ExecOne(ExecAll(db, head + inserts), bump);
    assert ExecAll(ExecAll(db, head + inserts), []) == ExecAll(db, head + inserts) by {
      ExecNothing(ExecAll(db, head + inserts), tail);
      assert tail[..0] == [];
    }
    assert inserts[..|r.cases|] == inserts;
    assert StoreAll(r.submissionId, r.cases)[..|r.cases|] == StoreAll(r.submissionId, r.cases);
  }

  lemma RunScriptIsOneShot(db: Db, r: DbResult)
    ensures ExecAll(db, RunScript(r)) == ApplyRun(db, r)
    ensures ExecAll(Exec(Exec(db, UpdateRunRow(r.runId, RunRowOf(r))), DeleteRunCases(r.runId)),
                    RunInserts(r.runId, r.cases)) == ApplyRun(db, r)
  {
    hide RunRowOf, Store, Select, StoreAll, ExecAll, RunInserts;
    var head := [UpdateRunRow(r.runId, RunRowOf(r)), DeleteRunCases(r.runId)];
    var inserts := RunInserts(r.runId, r.cases);
    ExecJoin(db, head, inserts);
    ExecTwo(db, head[0], head[1]);
    ExecRunInserts(ExecAll(db, head), r.runId, r.cases, |r.cases|);
    assert inserts[..|r.cases|] == inserts;
    assert StoreAll(r.runId, r.cases)[..|r.cases|] == StoreAll(r.runId, r.cases);
  }

  // ---------- what the one-shot updates do to the rows ----------

  lemma {:induction false} SelectJoin(a: seq<StoredCase>, b: seq<StoredCase>, owner: nat, mine: bool)
    ensures Select(a + b, owner, mine) == Select(a, owner, mine) + Select(b, owner, mine)
  {
    if a == [] {
      assert a + b == b;
    } else {
      SelectJoin(a[1..], b, owner, mine);
      TailOfConcat(a, b);
      ConcatAssoc([a[0]], Select(a[1..], owner, mine), Select(b, owner, mine));
    }
  }

  lemma {:induction false} SelectFromOthers(rows: seq<StoredCase>, owner: nat, other: nat, mine: bool)
    requires owner == other || mine
    ensures Select(Select(rows, owner, false), other, mine) ==
            if owner != other then Select(rows, other, mine) else if mine then [] else Select(rows, owner, false)
  {
    if rows != [] {
      SelectFromOthers(rows[1..], owner, other, mine);
      if rows[0].owner != owner {
        var rest := Select(rows[1..], owner, false);
        assert ([rows[0]] + rest)[1..] == rest;
      }
    }
  }

  lemma {:induction false} SelectOwned(rows: seq<StoredCase>, owner: nat, other: nat, mine: bool)
    requires forall i :: 0 <= i < |rows| ==> rows[i].owner == owner
    ensures Select(rows, other, mine) == if (owner == other) == mine then rows else []
  {
    if rows != [] {
      SelectOwned(rows[1..], owner, other, mine);
    }
  }

  /** Replacing the rows of one owner: its rows are exactly the new ones in order, and the
      rows of every other owner are what they were. */
  lemma ReplacedRows(rows: seq<StoredCase>, owner: nat, items: seq<DbCase>, other: nat)
    ensures RowsOf(Without(rows, owner) + StoreAll(owner, items), other)
         == if other == owner then StoreAll(owner, items) else RowsOf(rows, other)
    ensures Without(Without(rows, owner) + StoreAll(owner, items), owner) == Without(rows, owner)
  {
    var added := StoreAll(owner, items);
    SelectJoin(Without(rows, owner), added, other, true);
    SelectJoin(Without(rows, owner), added, owner, false);
    SelectFromOthers(rows, owner, other, true);
    SelectFromOthers(rows, owner, owner, false);
    SelectOwned(added, owner, other, true);
    SelectOwned(added, owner, owner, false);
  }

  /** The rows of an owner are those that say so, and the others are the rest. */
  lemma {:induction false} SelectedRows(rows: seq<StoredCase>, owner: nat, row: StoredCase)
    ensures row in RowsOf(rows, owner) <==> row in rows && row.owner == owner
    ensures row in Without(rows, owner) <==> row in rows && row.owner != owner
    ensures |RowsOf(rows, owner)| + |Without(rows, owner)| == |rows|
  {
    if rows != [] {
      SelectedRows(rows[1..], owner, row);
    }
  }

  /** What one committed result of a run of code means for every table. */
  lemma RunTables(db: Db, r: DbResult, other: nat)
    ensures var after := ApplyRun(db, r);
      && after.codeRuns.Keys == db.codeRuns.Keys
      && (other in db.codeRuns ==>
            after.codeRuns[other] == if other == r.runId then RunRowOf(r) else db.codeRuns[other])
      && RowsOf(after.runCaseRows, other) ==
           (if other == r.runId then StoreAll(r.runId, r.cases) else RowsOf(db.runCaseRows, other))
      && after.submissions == db.submissions && after.caseRows == db.caseRows
      && after.acceptedCounts == db.acceptedCounts
  {
    hide RunRowOf, Store;
    ReplacedRows(db.runCaseRows, r.runId, r.cases, other);
  }

  /** What one committed submission result means for every table. */
  lemma SubmissionTables(db: Db, r: DbResult, other: nat)
    ensures var after := ApplySubmission(db, r);
      && after.submissions.Keys == db.submissions.Keys
      && (other in db.submissions ==>
            after.submissions[other] == if other == r.submissionId then SubmissionRowOf(r) else db.submissions[other])
      && RowsOf(after.caseRows, other) ==
           (if other == r.submissionId then StoreAll(r.submissionId, r.cases) else RowsOf(db.caseRows, other))
      && after.acceptedCounts.Keys == db.acceptedCounts.Keys
      && (other in db.acceptedCounts ==>
            after.acceptedCounts[other] ==
            db.acceptedCounts[other] + if CountsAsAccepted(r) && other == r.problemId then 1 else 0)
      && after.codeRuns == db.codeRuns && after.runCaseRows == db.runCaseRows
  {
    hide SubmissionRowOf, Store;
    ReplacedRows(db.caseRows, r.submissionId, r.cases, other);
  }

  /** Committing a result again changes nothing but the accepted counter, which moves on. */
  lemma RedeliveryIsIdempotentButForTheCounter(db: Db, r: DbResult)
    ensures var once := ApplySubmission(db, r);
      var twice := ApplySubmission(once, r);
      && twice == once.(acceptedCounts := twice.acceptedCounts)
      && (twice == once <==> !(CountsAsAccepted(r) && r.problemId in db.acceptedCounts))
    ensures ApplyRun(ApplyRun(db, r), r) == ApplyRun(db, r)
  {
    hide SubmissionRowOf, RunRowOf, Store;
    ReplacedRows(db.caseRows, r.submissionId, r.cases, r.submissionId);
    ReplacedRows(db.runCaseRows, r.runId, r.cases, r.runId);
    var once := ApplySubmission(db, r);
    if CountsAsAccepted(r) && r.problemId in db.acceptedCounts {
      assert ApplySubmission(once, r).acceptedCounts[r.problemId] == once.acceptedCounts[r.problemId] + 1;
    }
  }

  // ---------- the client ----------

  /** How the server answers a query: it succeeds; it is refused without effect; or the
      answer is lost, which for a COMMIT means that it took effect unseen. */
  datatype Reply = Okay | Refused | Lost

  ghost predicate AllOkay(server: nat -> Reply, from: nat, to: nat) {
    forall i :: from <= i < to ==> server(i) == Okay
  }

  /** Of `n` queries from number `from` on those before `to` were sent: all of them, all answered
      well, when `ok`; else up to the first that is not. */
  ghost predicate Replied(server: nat -> Reply, from: nat, to: nat, n: nat, ok: bool) {
    if ok then to == from + n && AllOkay(server, from, to)
    else from < to <= from + n && AllOkay(server, from, to - 1) && server(to - 1) != Okay
  }

  /** The first of `n` queries from number `from` on that is not answered well, or the one
      after them. */
  function FirstBad(server: nat -> Reply, from: nat, n: nat): (k: nat)
    ensures from <= k <= from + n
    ensures forall i :: from <= i < k ==> server(i) == Okay
    ensures k < from + n ==> server(k) != Okay
    decreases n
  {
    if n == 0 || server(from) != Okay then from else FirstBad(server, from + 1, n - 1)
  }

  /** How many queries a transaction of `n` statements sends from number `from` on: all of
      them, or those up to the first that is not answered well and, unless that is START
      TRANSACTION, a ROLLBACK. */
  function Asked(server: nat -> Reply, from: nat, n: nat): nat {
    var bad := FirstBad(server, from, n + 2);
    if bad == from then 1
    else if bad == from + n + 2 then n + 2
    else bad - from + 2
  }

  /** Query `k` is the first of a transaction of `n` statements that is not answered well. */
  lemma FailsAt(server: nat -> Reply, from: nat, n: nat, k: nat)
    requires from <= k < from + n + 2 && server(k) != Okay
    requires AllOkay(server, from, k)
    ensures Asked(server, from, n) == if k == from then 1 else k - from + 2
    ensures !AllOkay(server, from, from + n + 2)
    ensures k <= from + n <==> !AllOkay(server, from, from + n + 1)
  {
    assert FirstBad(server, from, n + 2) == k;
  }

  lemma NeverFails(server: nat -> Reply, from: nat, n: nat)
    requires AllOkay(server, from, from + n + 2)
    ensures Asked(server, from, n) == n + 2
    ensures AllOkay(server, from, from + n + 1)
  {
  }

  /** One MySQL session. `open` is the working copy of a transaction not yet ended. */
  class MySQLClient {
    const server: nat -> Reply
    var connected: bool
    var sent: nat
    var committed: Db
    var open: Option<Db>

    constructor (server: nat -> Reply, db: Db)
      ensures this.server == server && connected && sent == 0 && committed == db && open == None
    {
      this.server := server;
      connected, sent, committed, open := true, 0, db, None;
    }

    method Begin() returns (ok: bool)
      requires open.None?
      modifies this
      ensures connected == old(connected) && sent == old(sent) + 1 && committed == old(committed)
      ensures ok == (server(old(sent)) == Okay)
      ensures open == if ok then Some(old(committed)) else None
    {
      ok := server(sent) == Okay;
      sent := sent + 1;
      if ok {
        open := Some(committed);
      }
    }

    method Query(stmt: Statement) returns (ok: bool)
      requires open.Some?
      modifies this
      ensures connected == old(connected) && sent == old(sent) + 1 && committed == old(committed)
      ensures ok == (server(old(sent)) == Okay)
      ensures open == Some(if ok then Exec(old(open).value, stmt) else old(open).value)
    {
      ok := server(sent) == Okay;
      sent := sent + 1;
      if ok {
        open := Some(Exec(open.value, stmt));
      }
    }

    method Commit() returns (ok: bool)
      requires open.Some?
      modifies this
      ensures connected == old(connected) && sent == old(sent) + 1
      ensures ok == (server(old(sent)) == Okay)
      ensures committed == if server(old(sent)) == Refused then old(committed) else old(open).value
      ensures open == if server(old(sent)) == Refused then old(open) else None
    {
      ok := server(sent) == Okay;
      if server(sent) != Refused {
        committed := open.value;
        open := None;
      }
      sent := sent + 1;
    }

    /** Whatever the answer, the transaction is over and without effect. */
    method Rollback()
      modifies this
      ensures connected == old(connected) && sent == old(sent) + 1
      ensures committed == old(committed) && open == None
    {
      sent := sent + 1;
      open := None;
    }

    /** The loop of INSERT statements of both transactions: `runs` tells them apart. */
    method InsertRows(owner: nat, items: seq<DbCase>, runs: bool) returns (ok: bool)
      requires open.Some?
      modifies this
      ensures connected == old(connected) && committed == old(committed) && open.Some?
      ensures Replied(server, old(sent), sent, |items|, ok)
      ensures ok ==>
                open == Some(ExecAll(old(open).value, if runs then RunInserts(owner, items) else Inserts(owner, items)))
    {
      hide Store, Exec, ExecAll;
      ghost var stmts := if runs then RunInserts(owner, items) else Inserts(owner, items);
      ghost var start := open.value;
      ExecNothing(start, stmts);
      for i := 0 to |items|
        invariant connected == old(connected) && committed == old(committed)
        invariant sent == old(sent) + i && AllOkay(server, old(sent), sent)
        invariant open == Some(ExecAll(start, stmts[..i]))
      {
        ExecOneMore(start, stmts, i);
        ok := Query(if runs then InsertRunCase(Store(owner, items[i])) else InsertCase(Store(owner, items[i])));
        if !ok {
          return false;
        }
      }
      assert stmts[..|items|] == stmts;
      return true;
    }

    /** The statements of `update_submission` between START TRANSACTION and COMMIT, up to the
        first that is not answered well. */
    method WriteSubmission(r: DbResult) returns (ok: bool)
      requires open.Some?
      modifies this
      ensures connected == old(connected) && committed == old(committed) && open.Some?
      ensures Replied(server, old(sent), sent, |SubmissionScript(r)|, ok)
      ensures ok ==> open == Some(ApplySubmission(old(open).value, r))
    {
      hide SubmissionRowOf, Store, Exec, ExecAll, ApplySubmission, SubmissionScript, Inserts;
      SubmissionStatements(r);
      SubmissionScriptIsOneShot(open.value, r);
      ok := Query(UpdateSubmissionRow(r.submissionId, SubmissionRowOf(r)));
      if !ok {
        return false;
      }
      ok := Query(DeleteCases(r.submissionId));
      if !ok {
        return false;
      }
      ok := InsertRows(r.submissionId, r.cases, false);
      if !ok {
        return false;
      }
      if r.status == ACCEPTED && r.problemId != 0 {
        ok := Query(BumpAcceptedCount(r.problemId));
      }
    }

    /** Likewise of `update_code_run`. */
    method WriteRun(r: DbResult) returns (ok: bool)
      requires open.Some?
      modifies this
      ensures connected == old(connected) && committed == old(committed) && open.Some?
      ensures Replied(server, old(sent), sent, |RunScript(r)|, ok)
      ensures ok ==> open == Some(ApplyRun(old(open).value, r))
    {
      hide RunRowOf, Store, Exec, ExecAll, ApplyRun, RunScript, RunInserts;
      RunStatements(r);
      RunScriptIsOneShot(open.value, r);
      ok := Query(UpdateRunRow(r.runId, RunRowOf(r)));
      if !ok {
        return false;
      }
      ok := Query(DeleteRunCases(r.runId));
      if !ok {
        return false;
      }
      ok := InsertRows(r.runId, r.cases, true);
    }

    /** `update_submission`: true exactly when every query of the transaction succeeds; the
        committed database is the one-shot update exactly when every statement succeeds and
        the COMMIT is not refused, and otherwise what it was. */
    method UpdateSubmission(r: DbResult) returns (ok: bool)
      requires open.None?
      modifies this
      ensures open == None && connected == old(connected)
      ensures var s, n := old(sent), |SubmissionScript(r)|;
        && (ok <==> old(connected) && AllOkay(server, s, s + n + 2))
        && sent == (if old(connected) then s + Asked(server, s, n) else s)
        && committed ==
           if old(connected) && AllOkay(server, s, s + n + 1) && server(s + n + 1) != Refused then
             ApplySubmission(old(committed), r)
           else old(committed)
    {
      hide ApplySubmission, SubmissionScript, FirstBad, Asked;
      if !connected {
        return false;
      }
      ghost var s, n := sent, |SubmissionScript(r)|;
      ok := Begin();
      if !ok {
        FailsAt(server, s, n, s);
        return false;
      }
      ok := WriteSubmission(r);
      if !ok {
        FailsAt(server, s, n, sent - 1);
        Rollback();
        return false;
      }
      ok := Commit();
      if !ok {
        FailsAt(server, s, n, s + n + 1);
        Rollback();
        return false;
      }
      NeverFails(server, s, n);
      return true;
    }

    /** `update_code_run`. */
    method UpdateCodeRun(r: DbResult) returns (ok: bool)
      requires open.None?
      modifies this
      ensures open == None && connected == old(connected)
      ensures var s, n := old(sent), |RunScript(r)|;
        && (ok <==> old(connected) && AllOkay(server, s, s + n + 2))
        && sent == (if old(connected) then s + Asked(server, s, n) else s)
        && committed ==
           if old(connected) && AllOkay(server, s, s + n + 1) && server(s + n + 1) != Refused then
             ApplyRun(old(committed), r)
           else old(committed)
    {
      hide ApplyRun, RunScript, FirstBad, Asked;
      if !connected {
        return false;
      }
      ghost var s, n := sent, |RunScript(r)|;
      ok := Begin();
      if !ok {
        FailsAt(server, s, n, s);
        return false;
      }
      ok := WriteRun(r);
      if !ok {
        FailsAt(server, s, n, sent - 1);
        Rollback();
        return false;
      }
      ok := Commit();
      if !ok {
        FailsAt(server, s, n, s + n + 1);
        Rollback();
        return false;
      }
      NeverFails(server, s, n);
      return true;
    }
  }
}
