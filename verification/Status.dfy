/** Verdicts and their database names. */
module Status {

  datatype JudgeStatus =
    | Pending | Compiling | Running | Accepted | WrongAnswer | TimeLimitExceeded
    | MemoryLimitExceeded | RuntimeError | CompilationError | SystemError

  /** `to_string`. */
  function StatusName(status: JudgeStatus): string {
    match status
    case Pending => "PENDING"
    case Compiling => "COMPILING"
    case Running => "RUNNING"
    case Accepted => "ACCEPTED"
    case WrongAnswer => "WRONG_ANSWER"
    case TimeLimitExceeded => "TIME_LIMIT_EXCEEDED"
    case MemoryLimitExceeded => "MEMORY_LIMIT_EXCEEDED"
    case RuntimeError => "RUNTIME_ERROR"
    case CompilationError => "COMPILE_ERROR"
    case SystemError => "SYSTEM_ERROR"
  }

  /** No two verdicts share a name: the first letter and the length tell them apart. */
  lemma NamesAreDistinct(a: JudgeStatus, b: JudgeStatus)
    requires StatusName(a) == StatusName(b)
    ensures a == b
  {
    assert StatusName(a)[0] == StatusName(b)[0];
    assert |StatusName(a)| == |StatusName(b)|;
  }
}
