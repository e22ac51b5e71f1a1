/** Delivery over whole runs: a broker, one worker with a program counter, and a database,
    with failing statements, lost answers, lost acknowledgements, crashes and redelivery. */
module Delivery {
  import opened Base
  import opened Status
  import opened Boxes
  import opened Messages
  import opened Judging
  import opened Database
  import opened Worker

  // ---------- the system ----------

  /** What never changes: the machine that judges, what each message decodes to (`None`: it
      cannot be used), and the database at the start. */
  datatype World = World(m: Machine, bodies: nat -> Option<Submission>, db0: Db)

  /** Where the worker stands in `on_message`; `k` statements of the transaction are done. */
  datatype Pc =
    | Idle
    | Parsing(msg: nat)
    | Judging(msg: nat)
    | Opening(msg: nat, r: JudgeResult)
    | Writing(msg: nat, r: JudgeResult, k: nat, working: Db)
    | Acking(msg: nat)
    | Nacking(msg: nat)

  /** A transaction that took effect: the result `r` of message `msg`. */
  datatype Entry = Entry(msg: nat, r: JudgeResult)

  datatype State = State(
    published: set<nat>,
    ready: seq<nat>,
    unacked: set<nat>,
    settled: set<nat>,
    pc: Pc,
    committed: Db,
    log: seq<Entry>)

  /** `Requeue` is the broker giving up on deliveries whose channel has died, at any time;
      `Die` is the death of the worker, an exception out of `judge` included. */
  datatype Action =
    | Publish(msg: nat)
    | Deliver
    | Parse
    | Judge(r: JudgeResult)
    | Begin(ok: bool)
    | Execute(ok: bool)
    | Commit(reply: Reply)
    | SendAck(received: bool)
    | SendNack(received: bool, position: nat)
    | Die
    | Requeue(msgs: seq<nat>)

  ghost predicate JudgedIn(m: Machine, sub: Submission, r: JudgeResult, id: int, box: Box) {
    JudgeOn(m, id, box, sub).0 == Returned(r)
  }

  /** `r` is a value that `judge` may return for `sub`, whatever box it got. */
  ghost predicate PossibleResult(m: Machine, sub: Submission, r: JudgeResult) {
    exists id: int, box: Box :: JudgedIn(m, sub, r, id, box)
  }

  function InsertAt(queue: seq<nat>, position: nat, msg: nat): seq<nat>
    requires position <= |queue|
  {
    queue[..position] + [msg] + queue[position..]
  }

  ghost predicate Enabled(w: World, s: State, a: Action) {
    match a
    case Publish(msg) => msg !in s.published
    case Deliver => s.pc.Idle? && s.ready != []
    case Parse => s.pc.Parsing?
    case Judge(r) => s.pc.Judging? && w.bodies(s.pc.msg).Some? && PossibleResult(w.m, w.bodies(s.pc.msg).value, r)
    case Begin(_) => s.pc.Opening?
    case Execute(_) => s.pc.Writing? && w.bodies(s.pc.msg).Some? && s.pc.k < |Script(w.bodies(s.pc.msg).value, s.pc.r)|
    case Commit(_) => s.pc.Writing? && w.bodies(s.pc.msg).Some? && s.pc.k == |Script(w.bodies(s.pc.msg).value, s.pc.r)|
    case SendAck(received) => s.pc.Acking? && (received ==> s.pc.msg in s.unacked)
    case SendNack(received, position) =>
      s.pc.Nacking? && (received ==> s.pc.msg in s.unacked && position <= |s.ready|)
    case Die => true
    case Requeue(msgs) => NoDuplicates(msgs) && forall i :: 0 <= i < |msgs| ==> msgs[i] in s.unacked
  }

  ghost function Apply(w: World, s: State, a: Action): State
    requires Enabled(w, s, a)
  {
    match a
    case Publish(msg) => s.(published := s.published + {msg}, ready := s.ready + [msg])
    case Deliver => s.(ready := s.ready[1..], unacked := s.unacked + {s.ready[0]}, pc := Parsing(s.ready[0]))
    case Parse => s.(pc := if w.bodies(s.pc.msg).None? then Acking(s.pc.msg) else Judging(s.pc.msg))
    case Judge(r) => s.(pc := Opening(s.pc.msg, r))
    case Begin(ok) => s.(pc := if ok then Writing(s.pc.msg, s.pc.r, 0, s.committed) else Nacking(s.pc.msg))
    case Execute(ok) =>
      s.(pc := if ok then
                 var stmt := Script(w.bodies(s.pc.msg).value, s.pc.r)[s.pc.k];
                 s.pc.(k := s.pc.k + 1, working := Exec(s.pc.working, stmt))
               else Nacking(s.pc.msg))
    case Commit(reply) =>
      var s' := if reply == Refused then s else s.(committed := s.pc.working, log := s.log + [Entry(s.pc.msg, s.pc.r)]);
      s'.(pc := if reply == Okay then Acking(s.pc.msg) else Nacking(s.pc.msg))
    case SendAck(received) =>
      if received then s.(unacked := s.unacked - {s.pc.msg}, settled := s.settled + {s.pc.msg}, pc := Idle)
      else s.(pc := Idle)
    case SendNack(received, position) =>
      if received then s.(unacked := s.unacked - {s.pc.msg}, ready := InsertAt(s.ready, position, s.pc.msg), pc := Idle)
      else s.(pc := Idle)
    case Die => s.(pc := Idle)
    case Requeue(msgs) => s.(unacked := s.unacked - SetOf(msgs), ready := msgs + s.ready)
  }

  function SetOf(msgs: seq<nat>): set<nat> {
    set msg | msg in msgs
  }

  ghost predicate Initial(w: World, s: State) {
    s == State({}, [], {}, {}, Idle, w.db0, [])
  }

  ghost predicate Runs(w: World, s: State, acts: seq<Action>)
    decreases |acts|
  {
    acts == [] || (Enabled(w, s, acts[0]) && Runs(w, Apply(w, s, acts[0]), acts[1..]))
  }

  ghost function After(w: World, s: State, acts: seq<Action>): State
    requires Runs(w, s, acts)
    decreases |acts|
  {
    if acts == [] then s else After(w, Apply(w, s, acts[0]), acts[1..])
  }

  // ---------- the invariant ----------

  /** Every published message is in exactly one place. */
  ghost predicate Apart(published: set<nat>, ready: seq<nat>, unacked: set<nat>, settled: set<nat>) {
    && NoDuplicates(ready)
    && unacked !! settled
    && (forall msg :: msg in ready ==> msg !in unacked && msg !in settled)
    && (forall msg :: msg in published <==> msg in ready || msg in unacked || msg in settled)
  }

  ghost predicate Partitioned(s: State) {
    Apart(s.published, s.ready, s.unacked, s.settled)
  }

  ghost predicate InLog(log: seq<Entry>, msg: nat) {
    exists i :: 0 <= i < |log| && log[i].msg == msg
  }

  /** The database that the logged transactions make of the first one, each at once. */
  function Replay(w: World, log: seq<Entry>): Db {
    if log == [] then w.db0
    else
      var db, e := Replay(w, log[..|log| - 1]), log[|log| - 1];
      match w.bodies(e.msg) case None => db case Some(sub) => Write(db, sub, e.r)
  }

  ghost predicate EntryOk(w: World, e: Entry) {
    w.bodies(e.msg).Some? && PossibleResult(w.m, w.bodies(e.msg).value, e.r)
  }

  /** Where the worker stands, its transaction is the committed database plus the statements
      done, and it acknowledges only what may be forgotten. */
  ghost predicate PcOk(w: World, s: State) {
    match s.pc
    case Judging(msg) => w.bodies(msg).Some?
    case Opening(msg, r) => EntryOk(w, Entry(msg, r))
    case Writing(msg, r, k, working) =>
      && EntryOk(w, Entry(msg, r))
      && var script := Script(w.bodies(msg).value, r);
         k <= |script| && working == ExecAll(s.committed, script[..k])
    case Acking(msg) => w.bodies(msg).None? || InLog(s.log, msg)
    case _ => true
  }

  ghost predicate Inv(w: World, s: State) {
    && Partitioned(s)
    && PcOk(w, s)
    && s.committed == Replay(w, s.log)
    && (forall msg :: msg in s.settled ==> w.bodies(msg).None? || InLog(s.log, msg))
    && (forall i :: 0 <= i < |s.log| ==> EntryOk(w, s.log[i]))
  }

  lemma DeliveringKeepsApart(published: set<nat>, ready: seq<nat>, unacked: set<nat>, settled: set<nat>)
    requires Apart(published, ready, unacked, settled) && ready != []
    ensures Apart(published, ready[1..], unacked + {ready[0]}, settled)
  {
    assert forall i :: 1 <= i < |ready| ==> ready[i] != ready[0];
  }

  lemma RequeuingKeepsApart(published: set<nat>, ready: seq<nat>, unacked: set<nat>, settled: set<nat>, msgs: seq<nat>)
    requires Apart(published, ready, unacked, settled) && NoDuplicates(msgs)
    requires forall i :: 0 <= i < |msgs| ==> msgs[i] in unacked
    ensures Apart(published, msgs + ready, unacked - SetOf(msgs), settled)
  {
    assert forall msg :: msg in msgs ==> msg in unacked;
    assert forall i :: 0 <= i < |ready| ==> ready[i] in ready;
    assert forall msg :: msg in msgs + ready <==> msg in msgs || msg in ready;
  }

  lemma ReturningKeepsApart(
    published: set<nat>, ready: seq<nat>, unacked: set<nat>, settled: set<nat>, position: nat, msg: nat)
    requires Apart(published, ready, unacked, settled) && msg in unacked && position <= |ready|
    ensures Apart(published, InsertAt(ready, position, msg), unacked - {msg}, settled)
  {
    InsertedKeepsApart(ready, position, msg);
    hide InsertAt;
  }

  lemma KeepsPartitioned(w: World, s: State, a: Action)
    requires Partitioned(s) && Enabled(w, s, a)
    ensures Partitioned(Apply(w, s, a))
  {
    hide PossibleResult, Script, Exec, Apart, InsertAt;
    match a
    case Publish(msg) => PublishingKeepsApart(s.published, s.ready, s.unacked, s.settled, msg);
    case Deliver => DeliveringKeepsApart(s.published, s.ready, s.unacked, s.settled);
    case SendAck(received) =>
      if received {
        SettlingKeepsApart(s.published, s.ready, s.unacked, s.settled, s.pc.msg);
      }
    case SendNack(received, position) =>
      if received {
        ReturningKeepsApart(s.published, s.ready, s.unacked, s.settled, position, s.pc.msg);
      }
    case Requeue(msgs) => RequeuingKeepsApart(s.published, s.ready, s.unacked, s.settled, msgs);
    case _ =>
  }

  lemma PublishingKeepsApart(published: set<nat>, ready: seq<nat>, unacked: set<nat>, settled: set<nat>, msg: nat)
    requires Apart(published, ready, unacked, settled) && msg !in published
    ensures Apart(published + {msg}, ready + [msg], unacked, settled)
  {
  }

  lemma SettlingKeepsApart(published: set<nat>, ready: seq<nat>, unacked: set<nat>, settled: set<nat>, msg: nat)
    requires Apart(published, ready, unacked, settled) && msg in unacked
    ensures Apart(published, ready, unacked - {msg}, settled + {msg})
  {
  }

  lemma InsertedKeepsApart(queue: seq<nat>, position: nat, msg: nat)
    requires NoDuplicates(queue) && position <= |queue| && msg !in queue
    ensures NoDuplicates(InsertAt(queue, position, msg))
    ensures forall x :: x in InsertAt(queue, position, msg) <==> x == msg || x in queue
  {
    var out := InsertAt(queue, position, msg);
    assert forall i :: 0 <= i < |out| ==>
      out[i] == if i < position then queue[i] else if i == position then msg else queue[i - 1];
    forall x | x in queue ensures x in out {
      var i :| 0 <= i < |queue| && queue[i] == x;
      assert out[if i < position then i else i + 1] == x;
    }
    assert out[position] == msg;
  }

  lemma CommittedIsWritten(db: Db, sub: Submission, r: JudgeResult)
    ensures ExecAll(db, Script(sub, r)) == Write(db, sub, r)
  {
    hide ExecAll, RunScript, SubmissionScript, ApplyRun, ApplySubmission;
    if IsRun(sub) {
      RunScriptIsOneShot(db, ToDb(sub, r));
    } else {
      SubmissionScriptIsOneShot(db, ToDb(sub, r));
    }
  }

  lemma KeepsPcOk(w: World, s: State, a: Action)
    requires Inv(w, s) && Enabled(w, s, a)
    ensures PcOk(w, Apply(w, s, a))
  {
    hide PossibleResult, Script, Exec, Apart, Write, Replay, InsertAt;
    match a
    case Begin(ok) =>
      assert ExecAll(s.committed, Script(w.bodies(s.pc.msg).value, s.pc.r)[..0]) == s.committed;
    case Execute(ok) =>
      hide ExecAll;
      ExecOneMore(s.committed, Script(w.bodies(s.pc.msg).value, s.pc.r), s.pc.k);
    case Commit(reply) =>
      if reply == Okay {
        assert (s.log + [Entry(s.pc.msg, s.pc.r)])[|s.log|].msg == s.pc.msg;
      }
    case _ =>
  }

  /** A transaction that takes effect is one more entry replayed. */
  lemma CommitReplays(w: World, s: State, reply: Reply)
    requires Inv(w, s) && Enabled(w, s, Commit(reply)) && reply != Refused
    ensures var s' := Apply(w, s, Commit(reply));
      && s'.committed == Replay(w, s'.log)
      && (forall msg :: msg in s'.settled ==> w.bodies(msg).None? || InLog(s'.log, msg))
      && (forall i :: 0 <= i < |s'.log| ==> EntryOk(w, s'.log[i]))
  {
    hide PossibleResult, Script, Exec, Apart, Write, ExecAll;
    var s' := Apply(w, s, Commit(reply));
    var sub, e := w.bodies(s.pc.msg).value, Entry(s.pc.msg, s.pc.r);
    assert Script(sub, s.pc.r)[..s.pc.k] == Script(sub, s.pc.r);
    CommittedIsWritten(s.committed, sub, s.pc.r);
    assert s'.log[..|s.log|] == s.log;
    LogGrows(s.log, e);
  }

  lemma KeepsInv(w: World, s: State, a: Action)
    requires Inv(w, s) && Enabled(w, s, a)
    ensures Inv(w, Apply(w, s, a))
  {
    hide PossibleResult, Script, Exec, ExecAll, Apart, Write, Replay, InsertAt, EntryOk;
    KeepsPartitioned(w, s, a);
    KeepsPcOk(w, s, a);
    if a.Commit? && a.reply != Refused {
      CommitReplays(w, s, a.reply);
    } else {
      hide PcOk;
      assert PcFact(w, s) by { AckingIsSafe(w, s); }
    }
  }

  /** What acknowledging relies on. */
  ghost predicate PcFact(w: World, s: State) {
    s.pc.Acking? ==> w.bodies(s.pc.msg).None? || InLog(s.log, s.pc.msg)
  }

  lemma AckingIsSafe(w: World, s: State)
    requires PcOk(w, s)
    ensures PcFact(w, s)
  {
  }

  lemma LogGrows(log: seq<Entry>, e: Entry)
    ensures forall msg :: InLog(log, msg) ==> InLog(log + [e], msg)
  {
    forall msg | InLog(log, msg) ensures InLog(log + [e], msg) {
      var i :| 0 <= i < |log| && log[i].msg == msg;
      assert (log + [e])[i].msg == msg;
    }
  }

  lemma {:induction false} RunsKeepInv(w: World, s: State, acts: seq<Action>)
    requires Inv(w, s) && Runs(w, s, acts)
    ensures Inv(w, After(w, s, acts))
    decreases |acts|
  {
    hide Inv, Enabled, Apply;
    if acts != [] {
      KeepsInv(w, s, acts[0]);
      RunsKeepInv(w, Apply(w, s, acts[0]), acts[1..]);
    }
  }

  // ---------- safety over all runs ----------

  /** In every run each published message is in exactly one of the three places, and a
      settled one could not be used or has its result in the database. */
  lemma DeliverySafety(w: World, s: State, acts: seq<Action>)
    requires Initial(w, s) && Runs(w, s, acts)
    ensures var s' := After(w, s, acts);
      && Partitioned(s')
      && s'.committed == Replay(w, s'.log)
      && forall msg :: msg in s'.settled ==> w.bodies(msg).None? || InLog(s'.log, msg)
  {
    hide Runs, After;
    assert Inv(w, s);
    RunsKeepInv(w, s, acts);
  }

  /** What is settled stays settled, what took effect stays in effect; and the step that
      settles a usable message finds its result already in the log. */
  lemma {:induction false} NothingIsUndone(w: World, s: State, acts: seq<Action>)
    requires Runs(w, s, acts)
    ensures s.settled <= After(w, s, acts).settled && s.log <= After(w, s, acts).log
    decreases |acts|
  {
    hide Enabled, PossibleResult, Script, Exec;
    if acts != [] {
      var s1 := Apply(w, s, acts[0]);
      NothingIsUndone(w, s1, acts[1..]);
      assert s.log <= s1.log;
    }
  }

  /** A usable message is settled only after its result was committed in an earlier step. */
  lemma CommittedBeforeSettled(w: World, s: State, acts: seq<Action>, a: Action, msg: nat)
    requires Initial(w, s) && Runs(w, s, acts) && Enabled(w, After(w, s, acts), a)
    requires w.bodies(msg).Some?
    requires msg !in After(w, s, acts).settled && msg in Apply(w, After(w, s, acts), a).settled
    ensures InLog(After(w, s, acts).log, msg)
  {
    hide Runs, After, PossibleResult, Script, Exec;
    assert Inv(w, s);
    RunsKeepInv(w, s, acts);
  }

  // ---------- the accepted counter ----------

  /** The entry counts for problem `p`. */
  predicate Bumps(w: World, e: Entry, p: nat) {
    match w.bodies(e.msg)
    case None => false
    case Some(sub) => !IsRun(sub) && e.r.status == Accepted && sub.problemId == p
  }

  /** The messages of the transactions that counted for problem `p`, in order. */
  function Bumping(w: World, log: seq<Entry>, p: nat): seq<nat> {
    if log == [] then []
    else Bumping(w, log[..|log| - 1], p) + if Bumps(w, log[|log| - 1], p) then [log[|log| - 1].msg] else []
  }

  lemma {:induction false} CounterOfReplay(w: World, log: seq<Entry>, p: nat)
    requires p != 0 && p in w.db0.acceptedCounts
    ensures p in Replay(w, log).acceptedCounts
    ensures Replay(w, log).acceptedCounts[p] == w.db0.acceptedCounts[p] + |Bumping(w, log, p)|
  {
    hide ApplySubmission, ApplyRun, ToDbCases, StatusName;
    if log != [] {
      var n := |log| - 1;
      CounterOfReplay(w, log[..n], p);
      var db, e := Replay(w, log[..n]), log[n];
      if w.bodies(e.msg).Some? {
        var sub := w.bodies(e.msg).value;
        WriteCounts(db, sub, e.r, p);
      }
    }
  }

  lemma WriteCounts(db: Db, sub: Submission, r: JudgeResult, p: nat)
    requires p != 0 && p in db.acceptedCounts
    ensures p in Write(db, sub, r).acceptedCounts
    ensures Write(db, sub, r).acceptedCounts[p] ==
            db.acceptedCounts[p] + if !IsRun(sub) && r.status == Accepted && sub.problemId == p then 1 else 0
  {
    hide ApplySubmission, StatusName, SubmissionRowOf, Select, StoreAll;
    NamedAccepted(r.status);
    if !IsRun(sub) {
      SubmissionTables(db, ToDb(sub, r), p);
    }
  }

  lemma {:induction false} SetOfSize(msgs: seq<nat>)
    ensures |SetOf(msgs)| <= |msgs|
    ensures |SetOf(msgs)| == |msgs| <==> NoDuplicates(msgs)
  {
    if msgs != [] {
      var init, last := msgs[..|msgs| - 1], msgs[|msgs| - 1];
      SetOfSize(init);
      assert msgs == init + [last];
      SetOfOneMore(init, last);
      hide NoDuplicates;
    }
  }

  lemma SetOfOneMore(init: seq<nat>, last: nat)
    ensures SetOf(init + [last]) == SetOf(init) + {last}
    ensures last in SetOf(init) <==> last in init
    ensures NoDuplicates(init + [last]) <==> NoDuplicates(init) && last !in init
  {
    var msgs := init + [last];
    if NoDuplicates(msgs) {
      assert forall i :: 0 <= i < |init| ==> init[i] == msgs[i] && msgs[i] != msgs[|init|];
    }
  }

  /** In every run the counter of an existing problem is its first value plus the number of
      accepted submission transactions that took effect; that is at least the number of
      different messages among them, with equality exactly when none took effect twice. */
  lemma AcceptedCountIsExact(w: World, s: State, acts: seq<Action>, p: nat)
    requires Initial(w, s) && Runs(w, s, acts)
    requires p != 0 && p in w.db0.acceptedCounts
    ensures var s' := After(w, s, acts);
      var bumping := Bumping(w, s'.log, p);
      && p in s'.committed.acceptedCounts
      && s'.committed.acceptedCounts[p] == w.db0.acceptedCounts[p] + |bumping|
      && s'.committed.acceptedCounts[p] >= w.db0.acceptedCounts[p] + |SetOf(bumping)|
      && (s'.committed.acceptedCounts[p] == w.db0.acceptedCounts[p] + |SetOf(bumping)| <==> NoDuplicates(bumping))
  {
    hide Runs, After, Initial;
    DeliverySafety(w, s, acts);
    var log := After(w, s, acts).log;
    CounterOfReplay(w, log, p);
    SetOfSize(Bumping(w, log, p));
  }

  // ---------- the stored records ----------

  /** The entry stores the record of submission `id`. */
  predicate Stores(w: World, e: Entry, id: nat) {
    match w.bodies(e.msg) case None => false case Some(sub) => !IsRun(sub) && sub.submissionId == id
  }

  /** The last transaction that stored the record of submission `id`, or -1. */
  function LastStore(w: World, log: seq<Entry>, id: nat): (k: int)
    ensures -1 <= k < |log|
    ensures 0 <= k ==> Stores(w, log[k], id)
    ensures forall i :: k < i < |log| ==> !Stores(w, log[i], id)
  {
    if log == [] then -1
    else if Stores(w, log[|log| - 1], id) then |log| - 1
    else LastStore(w, log[..|log| - 1], id)
  }

  lemma WriteRecord(db: Db, sub: Submission, r: JudgeResult, id: nat)
    ensures var after := Write(db, sub, r);
      var d := ToDb(sub, r);
      && after.submissions.Keys == db.submissions.Keys
      && (id in db.submissions ==>
            after.submissions[id] ==
            if !IsRun(sub) && sub.submissionId == id then SubmissionRowOf(d) else db.submissions[id])
      && RowsOf(after.caseRows, id) ==
           if !IsRun(sub) && sub.submissionId == id then StoreAll(id, d.cases) else RowsOf(db.caseRows, id)
  {
    hide ApplySubmission, StatusName, SubmissionRowOf, Select, Store;
    if !IsRun(sub) {
      SubmissionTables(db, ToDb(sub, r), id);
    }
  }

  /** The record of a submission is the one its last committed result wrote, whole. */
  lemma {:induction false} LastResultStands(w: World, log: seq<Entry>, id: nat)
    ensures var db, k := Replay(w, log), LastStore(w, log, id);
      && db.submissions.Keys == w.db0.submissions.Keys
      && (k < 0 ==>
            && (id in db.submissions ==> db.submissions[id] == w.db0.submissions[id])
            && RowsOf(db.caseRows, id) == RowsOf(w.db0.caseRows, id))
      && (k >= 0 ==>
            var d := ToDb(w.bodies(log[k].msg).value, log[k].r);
            && (id in db.submissions ==> db.submissions[id] == SubmissionRowOf(d))
            && RowsOf(db.caseRows, id) == StoreAll(id, d.cases))
  {
    hide Write, ToDb, SubmissionRowOf, StoreAll, Select;
    if log != [] {
      var n := |log| - 1;
      LastResultStands(w, log[..n], id);
      var e := log[n];
      if w.bodies(e.msg).Some? {
        WriteRecord(Replay(w, log[..n]), w.bodies(e.msg).value, e.r, id);
      }
    }
  }

  lemma PossibleIsEvidenced(m: Machine, sub: Submission, r: JudgeResult)
    requires PossibleResult(m, sub, r)
    ensures Evidenced(sub.testcases, r)
  {
    var id: int, box: Box :| JudgedIn(m, sub, r, id, box);
    hide OpsOf, JudgeWith, Evidenced;
    JudgeIsEvidenced(OpsOf(m, id, JobOf(sub)), sub.testcases, sub.memoryLimitKb, box);
  }

  /** In every run, every submission whose result was ever committed has a record that
      explains itself: the score, the verdict, the maxima and the case rows agree with each
      other and with the number of its tests. */
  lemma StoredRecordsAreConsistent(w: World, s: State, acts: seq<Action>, id: nat)
    requires Initial(w, s) && Runs(w, s, acts)
    ensures var s' := After(w, s, acts);
      var k := LastStore(w, s'.log, id);
      k >= 0 && id in w.db0.submissions ==>
        && id in s'.committed.submissions
        && RecordConsistent(s'.committed.submissions[id], RowsOf(s'.committed.caseRows, id),
                            w.bodies(s'.log[k].msg).value.testcases)
  {
    hide Runs, After, RecordConsistent, SubmissionRowOf, StoreAll, Select, PossibleResult, Evidenced, Partitioned;
    assert Inv(w, s) by { StartsWell(w, s); }
    RunsKeepInv(w, s, acts);
    var s' := After(w, s, acts);
    var k := LastStore(w, s'.log, id);
    LastResultStands(w, s'.log, id);
    if k >= 0 {
      var e := s'.log[k];
      assert EntryOk(w, e);
      var sub := w.bodies(e.msg).value;
      PossibleIsEvidenced(w.m, sub, e.r);
      EvidenceIsStored(sub, e.r);
    }
  }

  lemma StartsWell(w: World, s: State)
    requires Initial(w, s)
    ensures Inv(w, s)
  {
  }

  /** Equal in the submission, submission case and problem tables. */
  predicate SameSubmissionTables(a: Db, b: Db) {
    a.submissions == b.submissions && a.caseRows == b.caseRows && a.acceptedCounts == b.acceptedCounts
  }

  lemma WritesAgree(a: Db, b: Db, sub: Submission, r: JudgeResult)
    requires SameSubmissionTables(a, b)
    ensures SameSubmissionTables(Write(a, sub, r), if IsRun(sub) then b else Write(b, sub, r))
  {
    hide ToDb, SubmissionRowOf, StoreAll, Select;
  }

  /** The entries of submission tasks, in order. */
  function SubmissionEntries(w: World, log: seq<Entry>): seq<Entry> {
    if log == [] then []
    else
      var e := log[|log| - 1];
      SubmissionEntries(w, log[..|log| - 1]) +
      if w.bodies(e.msg).Some? && !IsRun(w.bodies(e.msg).value) then [e] else []
  }

  /** Runs of code leave no trace in the submission, submission case and problem tables: these
      are what the submission tasks alone make of them. */
  lemma {:induction false} RunTasksLeaveSubmissionsAlone(w: World, log: seq<Entry>)
    ensures SameSubmissionTables(Replay(w, log), Replay(w, SubmissionEntries(w, log)))
  {
    hide Write, IsRun, SameSubmissionTables;
    if log == [] {
      assert SameSubmissionTables(w.db0, w.db0) by { SameAsItself(w.db0); }
    } else {
      var n := |log| - 1;
      RunTasksLeaveSubmissionsAlone(w, log[..n]);
      var kept := SubmissionEntries(w, log[..n]);
      assert (kept + [log[n]])[..|kept|] == kept && kept + [] == kept;
      if w.bodies(log[n].msg).Some? {
        WritesAgree(Replay(w, log[..n]), Replay(w, kept), w.bodies(log[n].msg).value, log[n].r);
      }
    }
  }

  lemma SameAsItself(db: Db)
    ensures SameSubmissionTables(db, db)
  {
  }

  // ---------- nothing is lost ----------

  lemma {:induction false} RunsJoin(w: World, s: State, first: seq<Action>, second: seq<Action>)
    requires Runs(w, s, first) && Runs(w, After(w, s, first), second)
    ensures Runs(w, s, first + second) && After(w, s, first + second) == After(w, After(w, s, first), second)
    decreases |first|
  {
    hide Enabled, Apply;
    if first == [] {
      assert first + second == second;
    } else {
      RunsJoin(w, Apply(w, s, first[0]), first[1..], second);
      assert (first + second)[1..] == first[1..] + second;
    }
  }

  lemma OneStep(w: World, s: State, a: Action)
    requires Enabled(w, s, a)
    ensures Runs(w, s, [a]) && After(w, s, [a]) == Apply(w, s, a)
  {
    hide Enabled, Apply;
    assert [a][1..] == [];
    assert Runs(w, Apply(w, s, a), []);
  }

  lemma ThenStep(w: World, s: State, acts: seq<Action>, a: Action)
    requires Runs(w, s, acts) && Enabled(w, After(w, s, acts), a)
    ensures Runs(w, s, acts + [a]) && After(w, s, acts + [a]) == Apply(w, After(w, s, acts), a)
  {
    hide Enabled, Apply, Runs, After;
    OneStep(w, After(w, s, acts), a);
    RunsJoin(w, s, acts, [a]);
  }

  /** The transaction up to statement number `k`, when every statement before succeeds. */
  lemma {:induction false} StatementsRun(w: World, s: State, k: nat) returns (acts: seq<Action>)
    requires s.pc.Writing? && w.bodies(s.pc.msg).Some?
    requires s.pc.k <= k <= |Script(w.bodies(s.pc.msg).value, s.pc.r)|
    requires s.pc.working == ExecAll(s.committed, Script(w.bodies(s.pc.msg).value, s.pc.r)[..s.pc.k])
    ensures Runs(w, s, acts)
    ensures After(w, s, acts) ==
            s.(pc := Writing(s.pc.msg, s.pc.r, k,
                             ExecAll(s.committed, Script(w.bodies(s.pc.msg).value, s.pc.r)[..k])))
    decreases k - s.pc.k
  {
    hide Script, Exec, PossibleResult, ExecAll;
    if s.pc.k == k {
      acts := [];
    } else {
      ExecOneMore(s.committed, Script(w.bodies(s.pc.msg).value, s.pc.r), s.pc.k);
      var s1 := Apply(w, s, Execute(true));
      OneStep(w, s, Execute(true));
      var rest := StatementsRun(w, s1, k);
      RunsJoin(w, s, [Execute(true)], rest);
      acts := [Execute(true)] + rest;
    }
  }

  /** The transaction as a run: from where the result is there to the answer to be given. */
  lemma TransactionIsARun(w: World, s: State, server: nat -> Reply, sent: nat, connected: bool)
    returns (acts: seq<Action>)
    requires s.pc.Opening? && w.bodies(s.pc.msg).Some?
    ensures Runs(w, s, acts)
    ensures var s', msg, r := After(w, s, acts), s.pc.msg, s.pc.r;
      var (fate, db) := Outcome(s.committed, server, sent, connected, w.bodies(msg).value, r);
      && s' == s.(pc := if fate == Stored then Acking(msg) else Nacking(msg), committed := db, log := s'.log)
      && (s'.log == s.log || s'.log == s.log + [Entry(msg, r)])
      && (fate == Stored ==> s'.log == s.log + [Entry(msg, r)])
  {
    hide Script, Exec, PossibleResult, Runs, After, Write, ExecAll;
    var sub, msg, r := w.bodies(s.pc.msg).value, s.pc.msg, s.pc.r;
    var up := connected || server(sent) == Okay;
    var first, n := sent + 1, |Script(sub, r)|;
    if !up || server(first) != Okay {
      OneStep(w, s, Begin(false));
      acts := [Begin(false)];
    } else {
      OneStep(w, s, Begin(true));
      var s1 := Apply(w, s, Begin(true));
      var bad := FirstBad(server, first + 1, n);
      var k := bad - (first + 1);
      ExecNothing(s1.committed, Script(sub, r));
      var statements := StatementsRun(w, s1, k);
      RunsJoin(w, s, [Begin(true)], statements);
      acts := [Begin(true)] + statements;
      if k < n {
        assert !AllOkay(server, first, first + n + 1);
        ThenStep(w, s, acts, Execute(false));
        acts := acts + [Execute(false)];
      } else {
        assert AllOkay(server, first, first + n + 1);
        assert Script(sub, r)[..n] == Script(sub, r);
        CommittedIsWritten(s.committed, sub, r);
        ThenStep(w, s, acts, Commit(server(first + n + 1)));
        acts := acts + [Commit(server(first + n + 1))];
      }
    }
  }

  /** The broker after the worker's operations about message `msg`, the first ready one in `s`,
      when they are `received` or are lost: an acknowledged message is settled, a rejected one
      is ready again, and one the worker says nothing about stays with it. */
  ghost predicate Answered(s: State, s': State, msg: nat, tag: nat, ops: seq<Op>, received: bool)
    requires s.ready != []
  {
    if ops == [] || !received then
      s'.settled == s.settled && s'.ready == s.ready[1..] && s'.unacked == s.unacked + {msg}
    else if ops == [Ack(tag)] then
      s'.settled == s.settled + {msg} && s'.ready == s.ready[1..] && s'.unacked == s.unacked + {msg} - {msg}
    else
      && ops == [NackRequeue(tag)]
      && s'.settled == s.settled && s'.ready == s.ready && s'.unacked == s.unacked + {msg} - {msg}
  }

  lemma AnswerIsARun(w: World, s: State, fate: Fate, received: bool) returns (acts: seq<Action>)
    requires s.pc.Acking? || s.pc.Nacking?
    requires s.pc.Acking? <==> fate == Stored || fate == Discarded
    requires fate != NeverReturns && fate != LeftByException
    requires s.pc.msg in s.unacked
    ensures Runs(w, s, acts)
    ensures var s', msg := After(w, s, acts), s.pc.msg;
      && s' == s.(pc := Idle, ready := s'.ready, unacked := s'.unacked, settled := s'.settled)
      && s'.ready == (if fate == SentBack && received then [msg] + s.ready else s.ready)
      && s'.settled == (if fate != SentBack && received then s.settled + {msg} else s.settled)
      && s'.unacked == (if received then s.unacked - {msg} else s.unacked)
  {
    hide Script, Exec, PossibleResult;
    var a := if s.pc.Acking? then SendAck(received) else SendNack(received, 0);
    OneStep(w, s, a);
    acts := [a];
    assert InsertAt(s.ready, 0, s.pc.msg) == [s.pc.msg] + s.ready;
  }

  /** The worker, idle, handles the first ready message, judged to `r` if it is usable: what
      it does, for any answers of the server and whether or not its own answer arrives, is a
      run, with the data and the answer that `Outcome` says. */
  lemma HandlesFront(
    w: World, s: State, r: JudgeResult, server: nat -> Reply, sent: nat, connected: bool, tag: nat, received: bool)
    returns (acts: seq<Action>)
    requires s.pc.Idle? && s.ready != []
    requires w.bodies(s.ready[0]).Some? ==> PossibleResult(w.m, w.bodies(s.ready[0]).value, r)
    ensures Runs(w, s, acts)
    ensures var s', msg := After(w, s, acts), s.ready[0];
      match w.bodies(msg)
      case None =>
        && s'.committed == s.committed && s'.log == s.log
        && Answered(s, s', msg, tag, OpsFor(tag, Discarded), received)
      case Some(sub) =>
        var (fate, db) := Outcome(s.committed, server, sent, connected, sub, r);
        && s'.committed == db && Answered(s, s', msg, tag, OpsFor(tag, fate), received)
        && (s'.log == s.log || s'.log == s.log + [Entry(msg, r)])
        && (fate == Stored ==> s'.log == s.log + [Entry(msg, r)])
  {
    hide Script, Exec, PossibleResult, Runs, After, Write, Outcome;
    var msg := s.ready[0];
    var fate := Discarded;
    OneStep(w, s, Deliver);
    acts := [Deliver];
    ThenStep(w, s, acts, Parse);
    acts := acts + [Parse];
    if w.bodies(msg).Some? {
      ThenStep(w, s, acts, Judge(r));
      acts := acts + [Judge(r)];
      fate := Outcome(s.committed, server, sent, connected, w.bodies(msg).value, r).0;
      OutcomeFates(s.committed, server, sent, connected, w.bodies(msg).value, r);
      var transaction := TransactionIsARun(w, After(w, s, acts), server, sent, connected);
      RunsJoin(w, s, acts, transaction);
      acts := acts + transaction;
    }
    var answer := AnswerIsARun(w, After(w, s, acts), fate, received);
    RunsJoin(w, s, acts, answer);
    acts := acts + answer;
  }

  lemma OutcomeFates(db: Db, server: nat -> Reply, sent: nat, connected: bool, sub: Submission, r: JudgeResult)
    ensures Outcome(db, server, sent, connected, sub, r).0 in {Stored, SentBack}
  {
    hide Script, Write;
  }

  /** Every outcome of `on_message`, as its contract states it by `Handle`, is a run of the
      system with the same stored data and the same answer to the broker: an unusable message
      settled, a judged one stored or sent back, and one that is never done with left
      unacknowledged. */
  lemma OnMessageIsARun(
    w: World, s: State, tag: nat, doc: Option<RawMessage>, stage: Stage, server: nat -> Reply, received: bool)
    returns (acts: seq<Action>)
    requires s.pc.Idle? && s.ready != [] && stage.Ok() && stage.db == s.committed
    requires w.bodies(s.ready[0]) == if doc.Some? && Complete(doc.value) then Some(Decode(doc.value)) else None
    ensures Runs(w, s, acts)
    ensures var s' := After(w, s, acts);
      var (fate, next) := Handle(w.m, server, stage, doc);
      s'.committed == next.db && Answered(s, s', s.ready[0], tag, OpsFor(tag, fate), received)
  {
    hide Script, Exec, PossibleResult, Runs, After, Write, Outcome, JudgeOn, Complete, Decode, Answered, SentAfter;
    var msg := s.ready[0];
    if w.bodies(msg).None? {
      acts := HandlesFront(w, s, AcceptedResult([]), server, stage.sent, stage.connected, tag, received);
    } else if stage.queue == [] {
      acts := IsNeverDone(w, s, NeverReturns, tag, received);
    } else {
      var sub, b := w.bodies(msg).value, stage.queue[0];
      match JudgeOn(w.m, b, stage.boxes[b], sub).0
      case Threw => acts := IsNeverDone(w, s, LeftByException, tag, received);
      case Returned(r) =>
        IsPossible(w.m, sub, r, b, stage.boxes[b]);
        acts := HandlesFront(w, s, r, server, stage.sent, stage.connected, tag, received);
    }
  }

  lemma IsPossible(m: Machine, sub: Submission, r: JudgeResult, id: int, box: Box)
    requires JudgeOn(m, id, box, sub).0 == Returned(r)
    ensures PossibleResult(m, sub, r)
  {
    assert JudgedIn(m, sub, r, id, box);
  }

  /** The first ready message is handed out and no more is heard of it; when an exception
      left the call the worker is dead, else it waits for a box. */
  lemma IsNeverDone(w: World, s: State, fate: Fate, tag: nat, received: bool) returns (acts: seq<Action>)
    requires s.pc.Idle? && s.ready != [] && w.bodies(s.ready[0]).Some?
    requires fate == NeverReturns || fate == LeftByException
    ensures Runs(w, s, acts)
    ensures After(w, s, acts).committed == s.committed
    ensures Answered(s, After(w, s, acts), s.ready[0], tag, OpsFor(tag, fate), received)
    ensures After(w, s, acts).pc == if fate == NeverReturns then Judging(s.ready[0]) else Idle
  {
    hide Runs, After, PossibleResult;
    OneStep(w, s, Deliver);
    ThenStep(w, s, [Deliver], Parse);
    acts := [Deliver] + [Parse];
    if fate == LeftByException {
      ThenStep(w, s, acts, Die);
      acts := acts + [Die];
    }
  }

  /** Messages in front of `msg` are handed to workers that die at once. */
  lemma {:induction false} TakesOut(w: World, s: State, msg: nat, i: nat) returns (acts: seq<Action>)
    requires s.pc.Idle? && i < |s.ready| && s.ready[i] == msg
    ensures Runs(w, s, acts)
    ensures var s' := After(w, s, acts);
      s'.pc.Idle? && s'.ready != [] && s'.ready[0] == msg && s'.log == s.log && s'.settled == s.settled
    decreases i
  {
    if i == 0 {
      acts := [];
    } else {
      OneStep(w, s, Deliver);
      ThenStep(w, s, [Deliver], Die);
      var first := [Deliver] + [Die];
      var rest := TakesOut(w, After(w, s, first), msg, i - 1);
      RunsJoin(w, s, first, rest);
      acts := first + rest;
    }
  }

  /** The worker dies, and a message that it has not answered comes back. */
  lemma BringsBack(w: World, s: State, msg: nat) returns (acts: seq<Action>)
    requires Partitioned(s) && msg in s.published && msg !in s.settled
    ensures Runs(w, s, acts)
    ensures var s' := After(w, s, acts);
      s'.pc.Idle? && msg in s'.ready && s'.log == s.log && s'.settled == s.settled
  {
    hide Runs, After, PossibleResult;
    OneStep(w, s, Die);
    acts := [Die];
    if msg in s.unacked {
      assert [msg][0] == msg;
      ThenStep(w, s, acts, Requeue([msg]));
      acts := acts + [Requeue([msg])];
    }
  }

  /** After any run, whatever failed in it, every message not settled yet can still be: some
      continuation settles it, and if it is usable, with any result it may be judged to. */
  lemma EveryMessageCanStillBeSettled(w: World, s: State, acts: seq<Action>, msg: nat, r: JudgeResult)
    returns (more: seq<Action>)
    requires Initial(w, s) && Runs(w, s, acts)
    requires msg in After(w, s, acts).published && msg !in After(w, s, acts).settled
    requires w.bodies(msg).Some? ==> PossibleResult(w.m, w.bodies(msg).value, r)
    ensures Runs(w, After(w, s, acts), more)
    ensures var s' := After(w, After(w, s, acts), more);
      && msg in s'.settled
      && s'.log == After(w, s, acts).log + if w.bodies(msg).Some? then [Entry(msg, r)] else []
  {
    hide Runs, After, PossibleResult, Inv;
    StartsWell(w, s);
    RunsKeepInv(w, s, acts);
    var s0 := After(w, s, acts);
    assert Partitioned(s0) by { PartOfInv(w, s0); }
    more := BringsBack(w, s0, msg);
    hide Enabled, Apply, Partitioned;
    var s1 := After(w, s0, more);
    var i :| 0 <= i < |s1.ready| && s1.ready[i] == msg;
    var second := TakesOut(w, s1, msg, i);
    RunsJoin(w, s0, more, second);
    more := more + second;
    var third := HandlesFront(w, After(w, s0, more), r, _ => Okay, 0, true, 0, true);
    if w.bodies(msg).Some? {
      AllWell(s1.committed, w.bodies(msg).value, r);
    }
    RunsJoin(w, s0, more, third);
    more := more + third;
  }

  lemma AllWell(db: Db, sub: Submission, r: JudgeResult)
    ensures Outcome(db, _ => Okay, 0, true, sub, r).0 == Stored
  {
    hide Script, Write;
  }

  lemma PartOfInv(w: World, s: State)
    requires Inv(w, s)
    ensures Partitioned(s)
  {
  }
}
