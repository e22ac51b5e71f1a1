# FlowStudy-Judge, verified model

FlowStudy-Judge is the worker of an online judge. It takes a message from a queue, compiles
and runs the submitted program in an isolate box, compares outputs, writes the verdict in one
database transaction, and acknowledges the message or sends it back.

Every module follows one component of the program. Code that changes state step by step is a
class or a method with the loops of the original, proved against a specification function;
the laws are lemmas about those functions, and two step systems carry the statements about
whole runs.

| module | models |
|---|---|
| `Base`, `Status` | exceptions as values, `std::getline`, `std::to_string`, verdict names |
| `OutputCompare` | `compare_output` and the white-space equivalence it decides |
| `Meta` | `parse_meta`: an order-sensitive fold over the lines of a meta file |
| `Switches` | isolate's own options: how they are written and how a command that holds them reads |
| `Commands`, `Boxes` | languages, the Java class name, command lines, and what compiling and running do to the files of a box |
| `Sandboxes` | the `Sandbox` class |
| `Messages` | `parse_message` after JSON decoding |
| `Judging` | one `judge` call: the steps and the judgement they amount to |
| `Engine` | `BoxPool` and `JudgeEngine` as one thread uses them |
| `Concurrency` | any number of `judge` calls at once: mutex, condition variable, interleaved box operations |
| `Isolation` | what a call finds in its box, and in which order a box passes from call to call |
| `Hermetic` | when a verdict can depend on nothing but the submission |
| `Database` | the tables, the statements, the transactions of `MySQLClient` |
| `Reconnects` | what those transactions need their one session for |
| `Worker` | `on_message`, the consume loop, and what ends up stored |
| `Delivery` | broker, worker and database over whole runs with failures and crashes |

## What is proved

* **Concurrency.** However any number of `judge` calls interleave, operation by operation, a
  call that returns gives the value that judging alone in its box gives. Isolate works in the box
  that the command names, read back from the text of the command, and that is always the box the
  call holds; the commands of two calls never name the same box. Boxes are never shared,
  and never lost but by an exception that leaves a call. The calls in one box form a serial
  chain, each starting from what the one before it, alone, makes of the box; at each step a call
  finds its own source, its own input and, unless its own program changes itself, the program its
  own compilation left, whatever the programs of other submissions do. No wake-up is lost
  (spurious wake-ups and barging included), runs are finite but for spurious wake-ups, and a run
  without exceptions that cannot go on has served everyone if and only if the pool has a box.
* **Hermetic judging.** A call gives the judgement of its submission from compiler and program
  alone, in every interleaving, as long as these two behave for this one submission and its box
  can be worked in; other submissions may do what they like.
* **What isolate is told.** Read back from the commands: the box, the meta, input, output and error
  files, the limits on processes, memory and wall time, the program to execute, which is the file
  that the compile command makes. A failure of the sandbox itself is never taken for a success.
* **Meta files** have a closed form on their lines, key by key.
* **Exceptions.** A call throws, and so loses its box, exactly when the compilation leaves a
  meta file with a malformed number, or the compilation is good and the first run that does not
  pass leaves one.
* **A law that is false of the code.** That every run executes the program its own `compile`
  built is not true in general: a meta file without `exitcode` line reads as exit code 0, so
  `judge` goes on and runs whatever an earlier submission left in the box. The failing input is
  a compiler killed at its wall limit: `KilledCompilerRunsLeftovers` gives, for every submission
  with a test in C++, Java or Go and every earlier submission in that language with another
  source, a machine on which, from a fresh box on, the earlier call changes the result of the
  later one. `BoxesMatterIffNoProgram` proves that the boxes cannot matter exactly when the
  compilation is reported as failed, or there are no tests, or the call itself put every part of
  the program into the box.
* **Output comparison** decides exactly the equivalence generated by single white-space edits.
* **Judging** is the first-failure judgement of the run outcomes; it composes over test lists,
  the numbering of the later tests changing nothing but numbers; every returned verdict carries
  its evidence, and the result records what the runs reported: times, memory, outputs, verdicts
  with their causes, messages.
* **Transactions** are all or nothing, for every result and every pattern of server answers in one
  session. Should reconnections replace the session unseen, a returned true means the whole update
  exactly when there was none or the first came before the first statement:
  `TrueMeansWholeIffInTime`.
* **Delivery.** Each message is in one place; a settled usable message has its result in the
  database since an earlier step; the database is always the replay of whole results; the
  accepted counter is exact; every stored record is consistent with itself and with the tests;
  from every reachable state every unsettled message can still be settled; and every outcome of
  the method `OnMessage` is a run of this system. What is stored for a message is stated on its
  document, table by table, for submissions and for runs of code. The consume loop is a function of the deliveries
  and of what machine and server answer.

## Assumptions

* Isolate changes files of the box it is called for and of no other. Its answers may differ
  from call to call (each `Box` counts the consultations), and nothing else is assumed about it
  outside `Hermetic`, and there only about one submission and its own program.
* `std::stod` (scaled to whole milliseconds) and `std::stoi` are parameters; `None` is the
  exception they throw. `judge` catches nothing, so an exception leaves it without giving the
  box back; the model says so.
* A transaction stays on one MySQL session, a ROLLBACK ends it without effect whatever its own
  answer, and a COMMIT whose answer is lost has taken effect. `UpdateSubmission` therefore
  returns false with a changed database in that one case only.
* Integers are unbounded: the code adds 1 to test positions and doubles a time limit, and does
  no other arithmetic on the values it stores. Ids are natural numbers.
* Characters are those of the "C" locale.

Where the documentation and the code differ the model follows the code: results go to
`fs_submission`, `fs_judge_case_result`, `fs_problem`, `fs_code_run` and
`fs_code_run_case_result`, statements are assembled as text, Accepted says nothing about time
(only a wall limit of max(5 s, 2 × limit) is passed), and `judge` never reports SystemError.

## Model

| member | source | states |
|---|---|---|
| OutputCompare.NormalizeLine | src/judge/judge_engine.cpp:239-244 | a line loses exactly its trailing spaces, tabs and CRs |
| OutputCompare.SplitLines | src/judge/judge_engine.cpp:249-261 | the loop over `getline` and the popping loop yield the canonical lines of a text |
| OutputCompare.CompareOutput | src/judge/judge_engine.cpp:246-273 | true if and only if the texts are connected by a chain of single white-space edits |
| OutputCompare.ComparisonDecidesEdits | src/judge/judge_engine.cpp:239-273 | equality of canonical lines and connectedness by edits are the same relation, both directions |
| OutputCompare.ConnectedIffSameNormalForm | src/judge/judge_engine.cpp:246-273 | connected texts are those with the same, unique normal form |
| OutputCompare.CanonicalLinesSpellNormalForm | src/judge/judge_engine.cpp:249-261 | the kept lines hold no newline, do not end in an empty line, and joined by newlines they are the normal form |
| OutputCompare.SplitJoined | src/judge/judge_engine.cpp:249-261 | joining canonical lines and splitting again returns the same lines |
| Meta.ParseMeta | src/judge/sandbox.cpp:341-383 | a missing file gives exit code -1 and status XX; otherwise the fold over the lines, left by an exception on the first malformed number; what the fold means for the text of the file is `MetaFileClosedForm` |
| Meta.ThrowsIffMalformed | src/judge/sandbox.cpp:360-376 | parsing throws exactly when some numeric value is malformed |
| Meta.MetaFileClosedForm | src/judge/sandbox.cpp:341-383 | on the text of the file: exit code, signal, status, memory and the time-out flag come from the last line with their keys, time is the maximum of the last `time` and the later `time-wall` values; throws iff a numeric line has no number |
| Meta.MissingMetaFails | src/judge/sandbox.cpp:341-350 | a missing file reads as exit code -1 and status XX |
| Meta.MetaClosedForm | src/judge/sandbox.cpp:352-380 | time is the maximum of the last `time` value and all `time-wall` values after it; every other field is its last assignment |
| Meta.AdjacentEntriesCommute | src/judge/sandbox.cpp:352-380 | adjacent lines that assign different fields may be exchanged, exceptions included |
| Commands.ReadJavaClassName | src/judge/sandbox.cpp:116-138 | the two scanning loops compute the class name function |
| Commands.LanguagesByName | src/judge/sandbox.cpp:107-114 | cpp and c++, java, python and py, go, in any case, and no other text, name a language |
| Commands.CharacterClasses | src/judge/sandbox.cpp:122-134 | white space and identifier characters of the "C" locale |
| Base.LinesSpellText | src/judge/sandbox.cpp:352-353 | the lines read hold no newline and spell the text but for a last newline |
| Base.LinesOfUnlines | src/judge/sandbox.cpp:352-353 | lines without newlines are told apart by the text they spell |
| Base.ToStringReads | src/judge/sandbox.cpp:19 | what `std::to_string` writes denotes the number it was given |
| Commands.ClassNameCharacterised | src/judge/sandbox.cpp:116-138 | for every text the result is the maximal identifier run after the first marker and white space, or Main; unique, not empty, identifier characters only |
| Commands.BuildRunArgs | src/judge/sandbox.cpp:310-334 | inserting the Java directories at position 3 and appending the command yields isolate options, then `--run --`, then the program |
| Boxes.MetaInsertedOnce | src/judge/sandbox.cpp:79-88 | for any argument list exactly one token is added, before the first `--run` or last; removing it gives the list back |
| Boxes.CommandsKeepOrder | src/judge/sandbox.cpp:146-334 | for every language and limit the meta option stands before `--run --` and the program with its arguments follows unchanged; what the options say is `CompileCommandSays` and `RunCommandSays` |
| Boxes.CompileCommandSays | src/judge/sandbox.cpp:140-263 | read back from the command: exactly one box id, that of the call; the meta file in the directory of that box; the error file that is read; the limits; and the compiler makes the file that the runs execute out of the source that was written |
| Boxes.RunCommandSays | src/judge/sandbox.cpp:265-335 | read back from the command: exactly one box id, that of the call; meta, input, output and error files; processes, memory (at least 2 GiB for Java) and wall limit max(5 s, 2 × limit); what is executed is the program of the call |
| Boxes.DirectoriesApart | src/judge/sandbox.cpp:16-21 | different boxes have different directories |
| Boxes.PreparingFailsIff | src/judge/sandbox.cpp:140-256 | preparing a compilation succeeds iff language, Go directories and source file are fine; a failure reads as exit code -1 and status XX |
| Boxes.FeedingFailsIff | src/judge/sandbox.cpp:265-308 | likewise for a run: input file and language |
| Boxes.ReadingBack | src/judge/sandbox.cpp:90-105 | a shell call that cannot be made or leaves no meta file is a failure; texts come from the output and error files |
| Boxes.RunsCompiledClass | src/judge/sandbox.cpp:164-299 | a Java run names the class whose source file the compilation of the same call wrote and compiled |
| Sandboxes.Sandbox.WriteFile | src/judge/sandbox.cpp:50-61 | the file holds the content, or nothing changed when it cannot be opened; other boxes unchanged |
| Sandboxes.Sandbox.BuildCommand | src/judge/sandbox.cpp:76-88 | the loop with `meta_added` inserts the meta option before the first `--run` |
| Sandboxes.Disk.Isolate | src/judge/sandbox.cpp:90-92 | isolate works in the box that the command names, whichever that is |
| Sandboxes.Sandbox.Execute | src/judge/sandbox.cpp:72-105 | the command names the box of the sandbox and isolate works there; the result is what the meta, output and error files say after the invocation, or XX when the shell call fails |
| Sandboxes.Sandbox.WriteSourceFile | src/judge/sandbox.cpp:140-256 | the part of `compile` before isolate: class name, Go directories, source file, each early failure |
| Sandboxes.Sandbox.Compile | src/judge/sandbox.cpp:140-263 | result, files and remembered Java class of a compilation, every early failure included |
| Sandboxes.Sandbox.Run | src/judge/sandbox.cpp:265-339 | result and files of a run, under the class remembered from the compilation |
| Messages.ParseMessage | src/judge/judge_engine.cpp:55-92 | a message is usable exactly when its mandatory members are there and null stands only for ids and the test list; it then decodes with the defaults of the code |
| Messages.EncodedDecodes | src/judge/judge_engine.cpp:55-92 | every submission has a document that decodes to it |
| Messages.MissingMembers | src/judge/judge_engine.cpp:61-81 | the defaults, member by member |
| Messages.PresentMembers | src/judge/judge_engine.cpp:61-86 | a member that is there is taken over, each in its place |
| Messages.UnusableIff | src/judge/judge_engine.cpp:61-91 | exactly which documents are unusable |
| Judging.LoopMeetsJudgement | src/judge/judge_engine.cpp:120-234 | from any iteration on, the loop with its early exits computes the first-failure judgement of the run outcomes |
| Judging.JudgeMeetsJudgement | src/judge/judge_engine.cpp:94-235 | after a good compilation `judge` is that judgement |
| Judging.JudgementCharacterised | src/judge/judge_engine.cpp:120-234 | accepted iff every run passes; otherwise the least failing run decides in the order TLE, MLE, RE, WA; one row for each run made, with the time, memory and output that the run reported, the verdict its cause explains and the message; time and memory are the maxima over these runs; accepted within the memory limit; throws iff the first run that does not pass threw |
| Judging.JudgeIsEvidenced | src/judge/judge_engine.cpp:94-235 | every returned verdict carries its evidence and records the runs that were made; a compilation error is reported iff the exit code is not 0, with the compiler's messages |
| Judging.TimeOutIffStatusTO | src/judge/judge_engine.cpp:150-164 | TLE iff the last `status` line is TO, whatever `killed` said |
| Judging.ThrowsIffMetaMalformed | src/judge/judge_engine.cpp:94-235 | a call throws, and keeps its box, iff the compilation leaves a malformed meta file, or it is good and the first run that does not pass leaves one |
| Judging.VerdictIsExplained | src/judge/judge_engine.cpp:150-223 | each verdict on a run iff its cause and none of the earlier causes; WA and AC by whether white-space edits connect the outputs |
| Judging.ErrorSays | src/judge/judge_engine.cpp:150-221 | the message of a row, its numbers read back: test number, memory, signal or exit code, error output |
| Judging.RejectionStands | src/judge/judge_engine.cpp:120-225 | run outcomes fixed, a rejection is the same whatever tests follow |
| Judging.NumberingIsOnlyNumbers | src/judge/judge_engine.cpp:120-234 | moving the number of the first test keeps status, maxima, row count and exceptions, and moves only the failed index, the defaulted case indices and the numbers in the messages |
| Judging.AcceptanceComposes | src/judge/judge_engine.cpp:120-234 | run outcomes fixed, an accepted list followed by other tests is the judgement of those tests alone with their numbers moved: rows concatenated, maxima combined |
| Judging.CaseNumbersAgree | src/judge/judge_engine.cpp:75-128 | a positive case index is kept from message to record; a missing, zero or negative one at position i becomes i+1; null makes the message unusable |
| Engine.InitializedIdsExact | src/judge/judge_engine.cpp:11-23 | the pool starts with exactly the ids that initialise, each once, in increasing order |
| Engine.BoxPool.constructor | src/judge/judge_engine.cpp:11-23 | the loop queues those ids in order, keeps a wrapper for each, and each has a box |
| Engine.BoxPool.Acquire | src/judge/judge_engine.cpp:31-37 | takes the front id, or waits when there is none |
| Engine.BoxPool.Release | src/judge/judge_engine.cpp:39-43 | appends the id |
| Engine.JudgeEngine.Judge | src/judge/judge_engine.cpp:94-235 | value and box as judging alone; one acquire and, unless an exception leaves the call, one release of the same box |
| Engine.JudgeEngine.RunCases | src/judge/judge_engine.cpp:120-234 | the loop with running maxima, four ordered checks and five exits computes the case recursion and gives the box back at each exit |
| Engine.RoundRobin | src/judge/judge_engine.cpp:31-43 | after n calls the queue is rotated by n mod k, and call n runs in box n mod k of the first queue |
| Concurrency.OperationKeepsMeaning | src/judge/judge_engine.cpp:94-235 | one atomic box operation leaves unchanged what the call will end with when nobody else touches its box |
| Concurrency.OthersLeaveBoxAlone | src/judge/judge_engine.cpp:97-233 | no action of another thread changes the box a thread works in |
| Concurrency.InterleavingIsInvisible | src/judge/judge_engine.cpp:94-235 | over every run: a returned value is the one of judging alone in that box, and every box is in exactly one place |
| Concurrency.WakeUpsAreNotLost | src/judge/judge_engine.cpp:31-43 | over every run: while a thread waits, available boxes are at most the woken threads |
| Concurrency.StuckIffAtRest | src/judge/judge_engine.cpp:31-43 | only spurious wake-ups are possible iff every thread has returned, failed or waits; and then nobody waits unless exceptions kept every box |
| Concurrency.RunsAreBounded | src/judge/judge_engine.cpp:31-43 | the other actions of a run are bounded by the work at its start plus the number of spurious wake-ups |
| Concurrency.EveryoneIsServedIffABoxExists | src/judge/judge_engine.cpp:11-43 | a run without exceptions that cannot go on has served every thread iff the pool was built with a box |
| Concurrency.UninterruptedCallIsSequential | src/judge/judge_engine.cpp:94-235 | a call nobody interrupts has a run in the step system, with the effect on queue, boxes and result of the sequential `judge` |
| Isolation.OperationFinds | src/judge/sandbox.cpp:250-338 | one operation of a call keeps what the call has in its box: its source, its input, and the program its compilation left unless that program changes itself |
| Isolation.EveryCallFindsItsOwnFiles | src/judge/judge_engine.cpp:94-235 | over every run and every machine: the compiler is called with the own source in the box, the program with the own input, the result is read from what that call left, and the program called is the one the own compilation left unless it changes itself |
| Isolation.CommandsNeverMeet | src/judge/judge_engine.cpp:94-235 | over every run: isolate works in the box that the command names, which is the one the thread holds, and the commands of two threads never name the same box |
| Isolation.InvocationHitsOwnBox | src/judge/sandbox.cpp:72-105 | one invocation: the effect on all boxes is that of the command on the box it names |
| Isolation.CallServesSubmission | src/judge/judge_engine.cpp:105-137 | source, input, limits and program of the operations are those of the submission, each in its place |
| Isolation.BoxesAreUsedSerially | src/judge/judge_engine.cpp:31-43 | over every run: the calls that took a box form a serial chain, each starting from what the call before it, alone, makes of the box; only the last may not have given it back |
| Isolation.BuiltPoolIsInitial | src/judge/judge_engine.cpp:11-23 | what the constructor leaves is a state that the runs start from |
| Isolation.InitialisedBoxesAreInOnePlace | src/judge/judge_engine.cpp:11-43 | over every run of a pool as built: each box that initialised is in the queue once or with exactly one thread, and no other box is anywhere |
| Hermetic.HermeticCompile | src/judge/sandbox.cpp:140-263 | a compiler that looks at the source alone: a compilation in a clean box reports what it says; parts of the program that neither it nor the call wrote stay what they were; other files are free |
| Hermetic.HermeticRun | src/judge/sandbox.cpp:265-339 | a run in a clean box with program `own` reports the execution of `own` on its input and limits and leaves it alone; nothing is asked of other programs |
| Hermetic.JudgementNeedsNoBox | src/judge/judge_engine.cpp:94-235 | the verdict is a function of toolchain and submission, in every clean box, as long as the runs execute the call's own program; only that program has to behave |
| Hermetic.ConcurrentJudgingIsPure | src/judge/judge_engine.cpp:94-235 | over every interleaving, every start and whatever other submissions do: a returned value is that function of its submission, for each call whose own compiler and program behave and whose box was clean |
| Hermetic.CallLeavesProgram | src/judge/judge_engine.cpp:94-235 | a call that builds its whole program leaves exactly that program in its box, whatever its verdict |
| Hermetic.StaleProgramDecides | src/judge/judge_engine.cpp:109-137 | exit code 0 with a part of the program not written: a machine that runs every program alike and two boxes that give two different results |
| Hermetic.BoxesMatterIffNoProgram | src/judge/judge_engine.cpp:109-137 | all clean boxes give the same result iff compilation failed, no test follows, or the call itself wrote every part of the program |
| Hermetic.NothingBuiltNothingOwn | src/judge/judge_engine.cpp:109-118 | a compiler that wrote nothing and whose meta file has no exit code: the call goes on without a program of its own, in every language but Python |
| Hermetic.KilledCompilerRunsLeftovers | src/judge/sandbox.cpp:341-383 | the failing input, from a fresh box on: after any ordinary submission in the same language with another source, a submission with a test whose compiler is killed gets another result than in the fresh box |
| Database.SubmissionScriptIsOneShot | src/db/mysql_client.cpp:87-145 | the statements one by one are the one-shot update of the tables |
| Database.RunScriptIsOneShot | src/db/mysql_client.cpp:170-216 | likewise for a run of code |
| Database.ReplacedRows | src/db/mysql_client.cpp:104-134 | after delete and inserts a submission's case rows are exactly the new ones in order, every other submission's rows untouched |
| Database.SubmissionTables | src/db/mysql_client.cpp:87-145 | what a committed result means for every row of every table, the accepted counter included |
| Database.RunTables | src/db/mysql_client.cpp:170-216 | what a committed result of a run of code means for every row of every table |
| Database.SelectedRows | src/db/mysql_client.cpp:104-110 | the rows of an owner are those that say so, the others are the rest |
| Database.RedeliveryIsIdempotentButForTheCounter | src/db/mysql_client.cpp:87-147 | committing twice equals committing once except for the accepted counter, and exactly when that is not bumped |
| Database.MySQLClient.InsertRows | src/db/mysql_client.cpp:112-134 | the INSERT loop, written once for both transactions: it goes on up to the first statement not answered well; if there is none the working copy has all rows |
| Database.MySQLClient.UpdateSubmission | src/db/mysql_client.cpp:76-157 | true iff every query succeeds; the committed database is the one-shot update or what it was, and the number of queries sent, for any pattern of answers |
| Database.MySQLClient.UpdateCodeRun | src/db/mysql_client.cpp:159-228 | likewise for a run of code |
| Reconnects.AcrossIsTheRest | src/db/mysql_client.cpp:76-157 | with automatic reconnection (lines 38-40) unseen at any query, what is stored after a returned true are the statements from the first reconnection on |
| Reconnects.LateReconnectLosesTheRow | src/db/mysql_client.cpp:76-157 | a reconnection after the first statement leaves the row of the submission as it was although true is returned |
| Reconnects.TrueMeansWholeIffInTime | src/db/mysql_client.cpp:76-157 | a returned true means the one-shot update for every database iff the session is not replaced, or is already replaced when the first statement comes |
| Reconnects.TrueMeansWholeRunIffInTime | src/db/mysql_client.cpp:159-228 | likewise for a run of code |
| Worker.EvidenceIsStored | src/worker/worker.cpp:81-104 | a judged verdict is stored as a record whose score, status, maxima, messages and case rows agree |
| Worker.SubmissionIsStored | src/worker/worker.cpp:81-121 | on the document: a stored message whose task type is not RUN leaves the judged record in the row and the case rows of its submission, moves the counter of its problem iff accepted, and changes nothing else |
| Worker.RunIsStored | src/worker/worker.cpp:81-121 | on the document: a stored RUN message leaves the judged record in the row and the case rows of its run, and changes nothing else |
| Worker.StoredWasJudged | src/worker/worker.cpp:64-121 | a stored message was usable and judged in the front box |
| Worker.Convert | src/worker/worker.cpp:81-104 | the loop fills the database record field by field and case by case |
| Worker.Worker.WriteResult | src/worker/worker.cpp:106-112 | ping and transaction: true iff everything succeeds; the stored data are the result as a whole or untouched |
| Worker.HandleTurns | src/worker/worker.cpp:61-124 | the box used by a message is at the back of the queue afterwards unless an exception kept it |
| Worker.Worker.OnMessage | src/worker/worker.cpp:61-124 | fate, box queue, boxes, stored data and state of the session are those of `Handle`: unusable messages change nothing, usable ones are judged and stored or sent back; the broker is told exactly what the fate says |
| Worker.Worker.Consume | src/mq/rabbitmq_client.cpp:134-159 | fates, boxes and stored data are `Handle` applied to the deliveries one after the other; each is answered once in order, and the box queue turns once for each judged message |
| Delivery.DeliverySafety | src/worker/worker.cpp:61-124 | over every run: each message in exactly one place, the database is the replay of logged results, a settled message was unusable or has its result there |
| Delivery.CommittedBeforeSettled | src/worker/worker.cpp:109-121 | the step that settles a usable message finds its result committed before |
| Delivery.NothingIsUndone | src/mq/rabbitmq_client.cpp:164-184 | settled messages stay settled and committed results stay committed |
| Delivery.AcceptedCountIsExact | src/db/mysql_client.cpp:136-151 | over every run: the counter is its first value plus the accepted submission transactions, at least the distinct messages among them, equal iff none twice |
| Delivery.LastResultStands | src/db/mysql_client.cpp:87-134 | a submission's record is the one its last committed result wrote, whole |
| Delivery.StoredRecordsAreConsistent | src/db/mysql_client.cpp:87-134 | over every run: score 100 iff ACCEPTED iff compiled and all n rows there and ACCEPTED; time and memory are row maxima; a rejection equals its last row; stored outputs bear out the statuses |
| Delivery.RunTasksLeaveSubmissionsAlone | src/worker/worker.cpp:110-112 | runs of code leave no trace in submission, submission case and problem tables |
| Delivery.HandlesFront | src/worker/worker.cpp:61-124 | the handling of the first message, for any answers of the server and whether or not the answer to the broker arrives: stored data, log and broker afterwards |
| Delivery.OnMessageIsARun | src/worker/worker.cpp:61-124 | every outcome of the method, as its contract states it, is a run of the system with the same stored data and the same answer to the broker |
| Delivery.TransactionIsARun | src/db/mysql_client.cpp:76-228 | for every pattern of server answers the transaction of the client is a run: refused at the start, at any statement or at COMMIT, COMMIT with its answer lost, or stored |
| Delivery.EveryMessageCanStillBeSettled | src/mq/rabbitmq_client.cpp:134-184 | after any run every message not settled yet has a continuation that settles it, with any result it may be judged to |

## Left out

- Engine.BoxPool.Acquire: covers one thread, for which a wait on an empty queue never ends; waiting, notification and wake-ups of many threads are in `Concurrency`, on values.
- Engine.BoxPool.Release: likewise; the mutex and `notify_one` are in `Concurrency`.
- Engine.BoxPool.constructor: the destructor, which only cleans up, is not modelled.
- Sandboxes.Sandbox.WriteFile: an error while writing to an opened file is not modelled, because the code does not look at it; nor are file permissions.
- Sandboxes.Sandbox.Execute: asks that its command names the box of the sandbox, as the commands of `compile` and `run`, its only callers, do.
- Messages.ParseMessage: a member of a wrong type makes a document unusable like one that cannot be decoded, and is not told apart from it.
- Worker.Worker.Consume: takes a finite batch instead of an endless stream, because every run of the loop sees finitely many messages; shutdown does not end the loop in the code either.
- Concurrency: an exception in one thread leaves the others running; in the program as it stands nobody catches it and the process ends.
- Hermetic: compilers and programs that read files other than their source, program and input; measured times and memory that vary from run to run.
- Reconnects: whether a reconnection in a transaction can go unseen depends on the client library, which is not part of this model; `MySQLClient` itself is modelled in one session.
- Delivery: one worker at a time; several workers on one queue, and isolation levels between their transactions, are not modelled.
- Connection set-up, login, retries and back-off of MySQL and RabbitMQ, configuration, logging, signals.
- Compiler and JVM flags, environment variables and mounted directories: literals of the source, about which nothing is proved.
- JSON decoding, SQL text and escaping, shell quoting, row ids and timestamps.
- Floating-point rounding in `std::stod(val) * 1000` and in the wall limit, which are exact here.
- `task_id`, used for log lines only, and the status descriptions: finite lookups.
