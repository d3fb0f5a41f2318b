/**
 * The orchestrator (scripts/test-runner.ts): validate the environment, run
 * the tests, generate the report, resolve its URL, mail it with retries, and
 * end with an exit code. The outcomes of the two commands it runs, the
 * summary file and the mail transport's outcome on each attempt are inputs.
 */
module TestRunner {
  import opened Wrappers
  import opened Environment
  import opened ValidateEnv
  import opened CiDetector
  import opened Retry
  import opened EmailSender

  /** What a run did, in order of the steps, and how it ended. */
  datatype Run = Run(
    exitCode: int,
    testsRan: bool,
    reportRan: bool,
    reportUrl: Option<string>,
    email: seq<Event<string>>)

  /** The options of the mail step: three attempts, 2000 ms apart times the attempt, with a callback. */
  const EmailRetry: Options := Options(Some(3), Some(2000), true)

  /** `REPORT_URL`, or else the URL for the detected platform. */
  function ReportUrl(env: Env): string {
    OrDefault(env, "REPORT_URL", GetReportUrl(env, Some(DetectCIPlatform(env)), None))
  }

  /** The mail step's attempts: attempt k prepares the message again and meets the transport's k-th outcome. */
  function Attempts(env: Env, cwd: string, summary: Option<Statistic>, reportUrl: string, transportOk: nat -> bool)
    : nat -> Result<(), string>
  {
    (k: nat) => EmailAttempt(env, cwd, summary, reportUrl, transportOk(k))
  }

  /**
   * The trace of the mail step: one to three attempts numbered from 1, a
   * callback and a wait of 2000 ms times the attempt after each failed one,
   * and fewer than three attempts only when the last one succeeded.
   */
  predicate MailTrace(trace: seq<Event<string>>, fn: nat -> Result<(), string>) {
    var n := |Pick(trace, Calls)|;
    && 1 <= n <= 3
    && Pick(trace, Calls) == Steps(1, n)
    && Pick(trace, Retries) == Steps(1, n - 1)
    && Pick(trace, Delays) == Steps(2000, n - 1)
    && (forall j :: 1 <= j < n ==> fn(j).Err?)
    && (n < 3 ==> fn(n).Ok?)
  }

  /** The mail step: `sendEmailReport` under `retry`, whose outcome the run ignores. */
  method MailReport(env: Env, cwd: string, summary: Option<Statistic>, reportUrl: string, transportOk: nat -> bool)
    returns (trace: seq<Event<string>>)
    ensures MailTrace(trace, Attempts(env, cwd, summary, reportUrl, transportOk))
  {
    var attempt := Attempts(env, cwd, summary, reportUrl, transportOk);
    assert MaxAttempts(EmailRetry) == 3 && DelayMs(EmailRetry) == 2000 && EmailRetry.hasOnRetry;
    var outcome;
    outcome, trace := Retry.Retry(attempt, EmailRetry);
    EmailShape(attempt, outcome, trace);
  }

  /**
   * `main()`. Each mail attempt prepares the message again and hands it to the
   * transport; `transportOk(k)` is the transport's outcome on attempt k.
   */
  method RunPipeline(
    env: Env, envFileExists: bool, allureProbeOk: bool, testsPass: bool, reportOk: bool,
    cwd: string, summary: Option<Statistic>, transportOk: nat -> bool)
    returns (run: Run)
    ensures run.exitCode == (if EnvironmentValid(env, allureProbeOk) && reportOk && testsPass then 0 else 1)
    ensures run.testsRan == run.reportRan == EnvironmentValid(env, allureProbeOk)
    ensures run.reportUrl == (if run.reportRan && reportOk then Some(ReportUrl(env)) else None)
    ensures run.reportUrl.None? ==> run.email == []
    ensures run.reportUrl.Some? ==> MailTrace(run.email, Attempts(env, cwd, summary, ReportUrl(env), transportOk))
  {
    run := Run(1, false, false, None, []);
    var isValid, _ := ValidateEnvironment(env, envFileExists, allureProbeOk);
    if !isValid {
      return;
    }

    var testsFailed := false;
    if !testsPass {
      testsFailed := true;
    }
    run := run.(testsRan := true, reportRan := true);
    if !reportOk {
      return;
    }

    var reportUrl := OrDefault(env, "REPORT_URL", GetReportUrl(env, Some(DetectCIPlatform(env)), None));
    run := run.(reportUrl := Some(reportUrl));
    CredentialsSkipUnreachable(env, allureProbeOk);

    if !IsSet(env, "GMAIL_USER") || !IsSet(env, "GMAIL_APP_PASSWORD") {
      assert false;
    } else {
      var trace := MailReport(env, cwd, summary, reportUrl, transportOk);
      run := run.(email := trace);
    }

    run := run.(exitCode := if testsFailed then 1 else 0);
  }

  /** Retrying with the mail step's options leaves a trace of that shape. */
  lemma EmailShape(fn: nat -> Result<(), string>, r: Result<(), RetryError<string>>, trace: seq<Event<string>>)
    requires match FirstOk(fn, 1, 3)
      case Some(k) => r == Ok(fn(k).value) && trace == FailedRounds(fn, k - 1, 2000, true) + [Call(k)]
      case None => r == Err(Thrown(fn(3).error)) && trace == FailedRounds(fn, 2, 2000, true) + [Call(3)]
    ensures MailTrace(trace, fn)
  {
    var k := match FirstOk(fn, 1, 3) case Some(k) => k case None => 3;
    assert trace == FailedRounds(fn, k - 1, 2000, true) + [Call(k)];
    RunShape(fn, k, 2000, true);
    assert |Steps(1, k)| == k;
  }

  /** A missing summary fails every attempt: three calls, two callbacks, waits of 2000 and 4000 ms. */
  lemma MissingSummaryRetries(env: Env, cwd: string, reportUrl: string, transportOk: nat -> bool, trace: seq<Event<string>>)
    requires MailTrace(trace, Attempts(env, cwd, None, reportUrl, transportOk))
    ensures Pick(trace, Calls) == [1, 2, 3]
    ensures Pick(trace, Retries) == [1, 2]
    ensures Pick(trace, Delays) == [2000, 4000]
  {
    var fn, n := Attempts(env, cwd, None, reportUrl, transportOk), |Pick(trace, Calls)|;
    assert fn(n) == EmailAttempt(env, cwd, None, reportUrl, transportOk(n));
    assert PrepareEmail(env, cwd, None, reportUrl).Err?;
    assert n == 3;
    assert Steps(1, 3) == [1, 2, 3];
    assert Steps(1, 2) == [1, 2];
    assert Steps(2000, 2) == [2000, 4000];
  }

  /** With the summary present but no recipients for its outcome, the first attempt returns: one call, no wait. */
  lemma NoRecipientsOneAttempt(env: Env, cwd: string, st: Statistic, reportUrl: string, transportOk: nat -> bool, trace: seq<Event<string>>)
    requires MailTrace(trace, Attempts(env, cwd, Some(st), reportUrl, transportOk))
    requires !IsSet(env, if st.total == st.passed then "EMAIL_RECIPIENTS_PASSED" else "EMAIL_RECIPIENTS_FAILED")
    ensures Pick(trace, Calls) == [1]
    ensures Pick(trace, Delays) == []
  {
    var n := |Pick(trace, Calls)|;
    SkipIffNoRecipients(env, cwd, st, reportUrl);
    assert Attempts(env, cwd, Some(st), reportUrl, transportOk)(1) == EmailAttempt(env, cwd, Some(st), reportUrl, transportOk(1));
    assert n == 1;
    assert Steps(1, 1) == [1];
  }

  /** The "credentials not configured" branch is never taken: validation has already demanded both. */
  lemma CredentialsSkipUnreachable(env: Env, allureProbeOk: bool)
    requires EnvironmentValid(env, allureProbeOk)
    ensures IsSet(env, "GMAIL_USER") && IsSet(env, "GMAIL_APP_PASSWORD")
  {
    ValidHasCredentials(env, allureProbeOk);
  }

  /** `REPORT_URL`, when set, wins over the detected platform. */
  lemma ReportUrlOverride(env: Env)
    requires IsSet(env, "REPORT_URL")
    ensures ReportUrl(env) == env["REPORT_URL"]
  {
  }
}
