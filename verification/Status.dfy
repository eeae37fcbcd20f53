/** Test statuses, the text form the supervisor writes, and the keys under
    which results are filed (src/lib.rs). */
module Status {
  import opened Text
  import opened Utf8

  datatype TestStatus = Inprogress | Passed | Failed | Notrun | FailedToRun | Unknown

  datatype TestResult = TestResult(status: TestStatus, starttime: int, duration: nat)

  type TestResultsMap = map<string, TestResult>

  /** src/lib.rs TestStatus::from_str: exact names first, then contained words in
      this order, so "FAILED TO RUN" is read as Failed. */
  function FromStr(s: string): TestStatus {
    if s == "In progress" then Inprogress
    else if s == "Passed" then Passed
    else if s == "Failed" then Failed
    else if s == "Not run" then Notrun
    else if s == "Failed to run" then FailedToRun
    else if s == "Unknown" then Unknown
    else if s == "" then Inprogress
    else if Contains(s, "IN PROGRESS") then Inprogress
    else if Contains(s, "PASSED") then Passed
    else if Contains(s, "FAILED") then Failed
    else if Contains(s, "NOTRUN") then Notrun
    else if Contains(s, "FAILED TO RUN") || Contains(s, "NOT STARTED") then FailedToRun
    else Unknown
  }

  /** src/lib.rs read_test_result: a file that is no UTF-8 cannot be read. The words
      looked for are ASCII, so they are in the text exactly when they are in the bytes. */
  function ReadStatus(content: string): Option<TestStatus> {
    if IsUtf8(content) then Some(FromStr(content)) else None
  }

  /** What is not decided is run again. */
  predicate IsOpen(content: string) {
    ReadStatus(content) in {None, Some(Inprogress)}
  }

  /** src/jobs.rs result_is_done: the statuses that are verdicts. */
  predicate IsDone(s: TestStatus) {
    s in {Passed, Failed, Notrun, FailedToRun}
  }

  /** src/jobs.rs job_wanted. */
  predicate JobWanted(s: Option<TestStatus>) {
    match s
    case None => true
    case Some(v) => !IsDone(v) && v != Inprogress
  }

  function StatusOf(results: TestResultsMap, key: string): Option<TestStatus> {
    if key in results then Some(results[key].status) else None
  }

  // --- result keys ---

  /** `s.replace(word, "")`. */
  function Without(s: string, word: string): string
    requires word != []
  {
    if s == [] then []
    else if word <= s then Without(s[|word|..], word)
    else [s[0]] + Without(s[1..], word)
  }

  /** src/lib.rs test_name_with_kernel and result_basename. */
  function ResultBasename(test: string, kernel: string, env: string): string {
    var dotted := ReplaceChar(Without(test, ".ktest"), '/', '.');
    var base := if kernel == "" then dotted else dotted + "@" + ReplaceChar(kernel, '/', '_');
    if env == "" then base else base + "@" + env
  }

  /** src/lib.rs subtest_result_key: the name of a result directory. */
  function SubtestResultKey(test: string, subtest: string, kernel: string, env: string): string {
    ResultBasename(test, kernel, env) + "." + ReplaceChar(subtest, '/', '.')
  }
}
