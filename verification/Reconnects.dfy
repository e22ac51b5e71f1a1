/** What the transactions of `MySQLClient` need their one session for. Automatic reconnection
    is switched on; here a reconnection may go unseen at any query, and the statements after it
    run without a transaction. */
module Reconnects {
  import opened Base
  import opened Database

  /** How a query that is answered well was served. */
  datatype How = SameSession | NewSession

  /** The stored data, and the working copy of the transaction while its session lives. */
  datatype Session = Session(committed: Db, open: Option<Db>)

  /** A new session knows of no transaction: the working copy is gone, and the statement takes
      effect at once. */
  function ExecIn(s: Session, stmt: Statement, how: How): Session {
    if how.SameSession? && s.open.Some? then s.(open := Some(Exec(s.open.value, stmt)))
    else Session(Exec(s.committed, stmt), None)
  }

  function ExecAllIn(s: Session, stmts: seq<Statement>, hows: seq<How>): Session
    requires |hows| == |stmts|
  {
    if stmts == [] then s
    else
      var n := |stmts| - 1;
      ExecIn(ExecAllIn(s, stmts[..n], hows[..n]), stmts[n], hows[n])
  }

  /** The stored data after START TRANSACTION, the statements and COMMIT, all of them answered
      well, so that the client returns true; `hows` ends with the COMMIT. */
  function UpdateAcross(db: Db, stmts: seq<Statement>, hows: seq<How>): Db
    requires |hows| == |stmts| + 1
  {
    var s := ExecAllIn(Session(db, Some(db)), stmts, hows[..|stmts|]);
    if hows[|stmts|].SameSession? && s.open.Some? then s.open.value else s.committed
  }

  lemma {:induction false} AcrossUpTo(db: Db, stmts: seq<Statement>, hows: seq<How>, j: nat)
    requires |hows| == |stmts| + 1 && j <= |stmts|
    ensures var k := Find(hows, NewSession);
      ExecAllIn(Session(db, Some(db)), stmts[..j], hows[..j]) ==
      if j <= k then Session(db, Some(ExecAll(db, stmts[..j]))) else Session(ExecAll(db, stmts[k..j]), None)
  {
    hide Exec, Find;
    var k := Find(hows, NewSession);
    if j > 0 {
      AcrossUpTo(db, stmts, hows, j - 1);
      assert stmts[..j][..j - 1] == stmts[..j - 1] && hows[..j][..j - 1] == hows[..j - 1];
      if j - 1 < k {
        assert hows[j - 1] != NewSession;
      } else {
        assert stmts[k..j][..j - 1 - k] == stmts[k..j - 1];
        if j - 1 == k {
          assert ExecAll(db, stmts[k..k]) == db;
        }
      }
    }
  }

  /** Only the statements from the first reconnection on are left. */
  lemma AcrossIsTheRest(db: Db, stmts: seq<Statement>, hows: seq<How>)
    requires |hows| == |stmts| + 1
    ensures var k := Find(hows, NewSession);
      UpdateAcross(db, stmts, hows) == if k <= |stmts| then ExecAll(db, stmts[k..]) else ExecAll(db, stmts)
  {
    hide Exec, ExecAll, ExecAllIn, Find;
    var k, n := Find(hows, NewSession), |stmts|;
    AcrossUpTo(db, stmts, hows, n);
    assert stmts[..n] == stmts;
    if k < n {
      assert stmts[k..n] == stmts[k..];
    } else if k == n {
      ExecNothing(db, stmts);
      assert stmts[..0] == stmts[k..];
    } else {
      assert hows[n] != NewSession;
    }
  }

  predicate TouchesRow(stmt: Statement) {
    stmt.UpdateSubmissionRow? || stmt.UpdateRunRow?
  }

  lemma {:induction false} RowsStay(db: Db, stmts: seq<Statement>)
    requires forall i :: 0 <= i < |stmts| ==> !TouchesRow(stmts[i])
    ensures ExecAll(db, stmts).submissions == db.submissions && ExecAll(db, stmts).codeRuns == db.codeRuns
  {
    hide Without;
    if stmts != [] {
      RowsStay(db, stmts[..|stmts| - 1]);
    }
  }

  lemma OnlyTheFirstTouchesRow(r: DbResult)
    ensures forall i :: 1 <= i < |SubmissionScript(r)| ==> !TouchesRow(SubmissionScript(r)[i])
    ensures forall i :: 1 <= i < |RunScript(r)| ==> !TouchesRow(RunScript(r)[i])
  {
    hide SubmissionRowOf, RunRowOf, Store;
  }

  /** If a new session serves any query at all, it serves the first statement already. */
  predicate InTime(hows: seq<How>) {
    var k := Find(hows, NewSession);
    k == 0 || k == |hows|
  }

  /** A later reconnection leaves the row of the submission as it was, though true is returned;
      likewise the row of a run of code. */
  lemma LateReconnectLosesTheRow(db: Db, r: DbResult, hows: seq<How>)
    requires !InTime(hows)
    ensures |hows| == |SubmissionScript(r)| + 1 ==>
              UpdateAcross(db, SubmissionScript(r), hows).submissions == db.submissions
    ensures |hows| == |RunScript(r)| + 1 ==>
              UpdateAcross(db, RunScript(r), hows).codeRuns == db.codeRuns
  {
    hide SubmissionScript, RunScript, ExecAll, UpdateAcross, Find, TouchesRow;
    var k := Find(hows, NewSession);
    OnlyTheFirstTouchesRow(r);
    if |hows| == |SubmissionScript(r)| + 1 {
      AcrossIsTheRest(db, SubmissionScript(r), hows);
      RowsStay(db, SubmissionScript(r)[k..]);
    }
    if |hows| == |RunScript(r)| + 1 {
      AcrossIsTheRest(db, RunScript(r), hows);
      RowsStay(db, RunScript(r)[k..]);
    }
  }

  lemma InTimeIsWhole(db: Db, stmts: seq<Statement>, hows: seq<How>)
    requires |hows| == |stmts| + 1 && InTime(hows)
    ensures UpdateAcross(db, stmts, hows) == ExecAll(db, stmts)
  {
    hide ExecAll, UpdateAcross, Find;
    AcrossIsTheRest(db, stmts, hows);
    assert stmts[0..] == stmts;
  }

  /** Exactly when a returned true means the one-shot update, whatever the stored data are: the
      session is not replaced, or it is already replaced when the first statement comes. */
  lemma TrueMeansWholeIffInTime(r: DbResult, hows: seq<How>)
    requires |hows| == |SubmissionScript(r)| + 1
    ensures InTime(hows) <==>
            forall db: Db :: UpdateAcross(db, SubmissionScript(r), hows) == ApplySubmission(db, r)
  {
    hide SubmissionScript, SubmissionRowOf, ExecAll, UpdateAcross, InTime, StoreAll, Without;
    if InTime(hows) {
      forall db: Db ensures UpdateAcross(db, SubmissionScript(r), hows) == ApplySubmission(db, r) {
        InTimeIsWhole(db, SubmissionScript(r), hows);
        SubmissionScriptIsOneShot(db, r);
      }
    } else {
      var row := SubmissionRowOf(r);
      var db := Db(map[r.submissionId := row.(score := row.score + 1)], [], map[], map[], []);
      LateReconnectLosesTheRow(db, r, hows);
      assert ApplySubmission(db, r).submissions[r.submissionId] == row;
      assert UpdateAcross(db, SubmissionScript(r), hows) != ApplySubmission(db, r);
    }
  }

  /** Likewise for a run of code. */
  lemma TrueMeansWholeRunIffInTime(r: DbResult, hows: seq<How>)
    requires |hows| == |RunScript(r)| + 1
    ensures InTime(hows) <==> forall db: Db :: UpdateAcross(db, RunScript(r), hows) == ApplyRun(db, r)
  {
    hide RunScript, RunRowOf, ExecAll, UpdateAcross, InTime, StoreAll, Without;
    if InTime(hows) {
      forall db: Db ensures UpdateAcross(db, RunScript(r), hows) == ApplyRun(db, r) {
        InTimeIsWhole(db, RunScript(r), hows);
        RunScriptIsOneShot(db, r);
      }
    } else {
      var row := RunRowOf(r);
      var db := Db(map[], [], map[], map[r.runId := row.(timeMs := row.timeMs + 1)], []);
      LateReconnectLosesTheRow(db, r, hows);
      assert ApplyRun(db, r).codeRuns[r.runId] == row;
      assert UpdateAcross(db, RunScript(r), hows) != ApplyRun(db, r);
    }
  }
}
