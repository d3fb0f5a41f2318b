/**
 * The report mail (scripts/email-sender.ts) up to the message it hands to the
 * transport: the counts from the Allure summary, the choice of recipient
 * list, the recipients themselves, the subject, the From header and the
 * template context. Whether the summary file exists is an input (its parsed
 * statistic or nothing); the transport's success is an input too.
 */
module EmailSender {
  import opened Wrappers
  import opened Strings
  import opened Environment
  import opened Encoding

  /** The `statistic` object of `allure-report/widgets/summary.json`. */
  datatype Statistic = Statistic(total: int, passed: int, failed: int, broken: int, skipped: int, unknown: int)

  /** Every test that did not pass: failed, broken, skipped or of unknown status. */
  function TotalFailed(st: Statistic): int {
    st.failed + st.broken + st.skipped + st.unknown
  }

  /** The run passed when every test passed. */
  predicate AllPassed(st: Statistic) {
    st.total == st.passed
  }

  /** The variable that holds the recipients for the outcome. */
  function RecipientsVar(allPassed: bool): string {
    if allPassed then "EMAIL_RECIPIENTS_PASSED" else "EMAIL_RECIPIENTS_FAILED"
  }

  /**
   * `value.split(',').map(email => email.trim())`: one recipient per
   * comma-separated entry, empty entries included.
   */
  function Recipients(value: string): (rs: seq<string>)
    ensures |rs| == Count(value, ',') + 1
  {
    SplitCount(value, ',');
    var parts := Split(value, ',');
    seq(|parts|, k requires 0 <= k < |parts| => Trim(parts[k]))
  }

  /** Each recipient is its entry without the whitespace around it: none at either end, and no comma. */
  lemma RecipientsTrimmed(value: string, k: int)
    requires 0 <= k < |Recipients(value)|
    ensures var r := Recipients(value)[k];
      && ',' !in r
      && (r != [] ==> !IsJsWhitespace(r[0]) && !IsJsWhitespace(r[|r| - 1]))
  {
    var parts := Split(value, ',');
    SplitPiecesFree(value, ',');
    TrimEnds(parts[k]);
    var r := Trim(parts[k]);
    var i, j :| 0 <= i <= j <= |parts[k]| && r == parts[k][i..j];
    assert forall c :: c in r ==> c in parts[k];
  }

  /** A lone comma gives two empty recipients: empty entries are kept, not filtered. */
  lemma EmptyEntriesKept()
    ensures Recipients(",") == ["", ""]
  {
    assert Split(",", ',') == ["", ""];
  }

  const DefaultCompanyName: string := "Playwright Tests"
  const DefaultSite: string := "https://example.com"
  const DefaultIcon: string := "https://via.placeholder.com/150"

  /** `COMPANY_NAME`, or `Playwright Tests` when it is unset or empty. */
  function CompanyName(env: Env): string {
    OrDefault(env, "COMPANY_NAME", DefaultCompanyName)
  }

  /** The status word of the subject, with its check or cross mark. */
  function Status(allPassed: bool): string {
    if allPassed then "Passed \U{2705}" else "Failed \U{274C}"
  }

  function Subject(company: string, allPassed: bool): string {
    "Automation Tests - " + company + " - " + Status(allPassed)
  }

  /**
   * The From header: the company name as an RFC 2047 encoded word (charset
   * utf-8, the "B" encoding of section 4.1, which is Base64), then the
   * address. An unset `GMAIL_USER` is written as `undefined`.
   */
  function FromHeader(env: Env, company: string): string {
    "=?utf-8?B?" + Base64Encode(Utf8Encode(company)) + "?= <" + Interpolate(Lookup(env, "GMAIL_USER")) + ">"
  }

  /** The values the mail template receives (the locale-dependent date texts are not modelled). */
  datatype Context = Context(
    name: string, linkReportOnline: string, title: string,
    total: int, passed: int, failed: int, site: string, icon: string)

  datatype MailOptions = MailOptions(from: string, to: seq<string>, subject: string, template: string, context: Context)

  /** What a call that gets past the summary check decides: send nothing, or this message. */
  datatype Decision = Skip | Send(mail: MailOptions)

  function SummaryPath(cwd: string): string {
    cwd + "/allure-report/widgets/summary.json"
  }

  /**
   * `sendEmailReport(reportUrl)` up to the message: an error when the summary
   * file is missing; nothing to send when the chosen recipient variable is
   * unset or empty; otherwise the message for the transport.
   */
  function PrepareEmail(env: Env, cwd: string, summary: Option<Statistic>, reportUrl: string): (r: Result<Decision, string>)
    ensures r.Err? <==> summary.None?
    ensures r.Ok? && r.value.Send? ==> IsSet(env, RecipientsVar(AllPassed(summary.value))) && |r.value.mail.to| >= 1
  {
    if summary.None? then Err("Summary file not found at: " + SummaryPath(cwd))
    else
      var st := summary.value;
      var allPassed := AllPassed(st);
      var recipientsVar := RecipientsVar(allPassed);
      if !IsSet(env, recipientsVar) then Ok(Skip)
      else
        var company := CompanyName(env);
        var context := Context(
          company, reportUrl, "Automation Test Report", st.total, st.passed, TotalFailed(st),
          OrDefault(env, "COMPANY_WEBSITE", DefaultSite), OrDefault(env, "COMPANY_LOGO_URL", DefaultIcon));
        Ok(Send(MailOptions(FromHeader(env, company), Recipients(env[recipientsVar]),
                            Subject(company, allPassed), "index", context)))
  }

  /** What the transport's failure makes the call throw (the transport's own error is not modelled). */
  const TransportError: string := "sendMail failed"

  /**
   * The outcome of one whole call: the decision's error, a normal return
   * when there is nothing to send, and otherwise the transport's outcome.
   */
  function EmailAttempt(env: Env, cwd: string, summary: Option<Statistic>, reportUrl: string, transportOk: bool): (r: Result<(), string>)
    ensures summary.None? ==> r.Err?
    ensures summary.Some? && r.Err? ==> !transportOk && r.error == TransportError
  {
    match PrepareEmail(env, cwd, summary, reportUrl)
    case Err(e) => Err(e)
    case Ok(Skip) => Ok(())
    case Ok(Send(_)) => if transportOk then Ok(()) else Err(TransportError)
  }

  /**
   * The whole call: the decision, then at most one hand-over to the
   * transport, whose failure is the call's error. `sent` holds the messages
   * handed over: the one prepared message, or none.
   */
  method SendEmailReport(env: Env, cwd: string, summary: Option<Statistic>, reportUrl: string, transportOk: bool)
    returns (r: Result<(), string>, sent: seq<MailOptions>)
    ensures r == EmailAttempt(env, cwd, summary, reportUrl, transportOk)
    ensures sent == match PrepareEmail(env, cwd, summary, reportUrl)
      case Ok(Send(mail)) => [mail]
      case _ => []
  {
    sent := [];
    var decision := PrepareEmail(env, cwd, summary, reportUrl);
    if decision.Err? {
      return Err(decision.error), sent;
    }
    match decision.value
    case Skip =>
      r := Ok(());
    case Send(mail) =>
      sent := sent + [mail];
      r := if transportOk then Ok(()) else Err(TransportError);
  }

  /** Once the summary exists, a call fails only when there are recipients and the transport fails. */
  lemma AttemptFailsOnlyInTransport(env: Env, cwd: string, st: Statistic, reportUrl: string, transportOk: bool)
    ensures EmailAttempt(env, cwd, Some(st), reportUrl, transportOk).Err?
            <==> IsSet(env, if st.total == st.passed then "EMAIL_RECIPIENTS_PASSED" else "EMAIL_RECIPIENTS_FAILED") && !transportOk
  {
  }

  /** A missing summary is an error, whatever the environment and the URL. */
  lemma MissingSummaryFails(env: Env, cwd: string, reportUrl: string)
    ensures PrepareEmail(env, cwd, None, reportUrl) == Err("Summary file not found at: " + cwd + "/allure-report/widgets/summary.json")
  {
    assert "Summary file not found at: " + SummaryPath(cwd)
        == "Summary file not found at: " + cwd + "/allure-report/widgets/summary.json";
  }

  /** Nothing is sent exactly when the recipient variable chosen by the outcome is unset or empty. */
  lemma SkipIffNoRecipients(env: Env, cwd: string, st: Statistic, reportUrl: string)
    ensures PrepareEmail(env, cwd, Some(st), reportUrl) == Ok(Skip)
            <==> !IsSet(env, if st.total == st.passed then "EMAIL_RECIPIENTS_PASSED" else "EMAIL_RECIPIENTS_FAILED")
  {
  }

  /**
   * The message that is sent: the recipients of the list the outcome chose,
   * one per entry, the From header of the company name, the subject with the
   * outcome's status, and the count of tests that did not pass (not just the
   * failed ones) in the context.
   */
  lemma SentMessage(env: Env, cwd: string, st: Statistic, reportUrl: string)
    requires PrepareEmail(env, cwd, Some(st), reportUrl).Ok?
    requires PrepareEmail(env, cwd, Some(st), reportUrl).value.Send?
    ensures var m := PrepareEmail(env, cwd, Some(st), reportUrl).value.mail;
      var v := if st.total == st.passed then "EMAIL_RECIPIENTS_PASSED" else "EMAIL_RECIPIENTS_FAILED";
      && IsSet(env, v)
      && m.to == Recipients(env[v])
      && |m.to| == Count(env[v], ',') + 1
      && m.from == FromHeader(env, CompanyName(env))
      && m.subject == "Automation Tests - " + CompanyName(env) + " - "
                      + (if st.total == st.passed then "Passed \U{2705}" else "Failed \U{274C}")
      && m.context.failed == st.failed + st.broken + st.skipped + st.unknown
      && m.context.total == st.total && m.context.passed == st.passed
      && m.context.linkReportOnline == reportUrl
  {
  }

  /** With `COMPANY_NAME` unset or empty, the subject names `Playwright Tests`. */
  lemma DefaultCompanySubject(env: Env, allPassed: bool)
    requires !IsSet(env, "COMPANY_NAME")
    ensures Subject(CompanyName(env), allPassed) == "Automation Tests - Playwright Tests - " + Status(allPassed)
  {
  }

  /** The subject tells the outcome apart: a passed and a failed run never share one. */
  lemma SubjectShowsOutcome(company: string)
    ensures Subject(company, true) != Subject(company, false)
  {
    var n := |"Automation Tests - " + company + " - "|;
    assert Subject(company, true)[n + 1] == 'a';
    assert Subject(company, false)[n + 1] == 'a';
    assert Subject(company, true)[n] == 'P';
    assert Subject(company, false)[n] == 'F';
  }

  /**
   * The From header carries the company name losslessly: its encoded word is
   * Base64 text whose bytes are the UTF-8 form of the name.
   */
  lemma FromHeaderDecodes(env: Env, company: string)
    ensures exists word ::
      && FromHeader(env, company) == "=?utf-8?B?" + word + "?= <" + Interpolate(Lookup(env, "GMAIL_USER")) + ">"
      && Base64Decode(word) == Some(Utf8Encode(company))
      && Utf8Decode(Utf8Encode(company)) == Some(company)
  {
    var word := Base64Encode(Utf8Encode(company));
    Base64RoundTrip(Utf8Encode(company));
    Utf8RoundTrip(company);
    assert FromHeader(env, company) == "=?utf-8?B?" + word + "?= <" + Interpolate(Lookup(env, "GMAIL_USER")) + ">";
  }
}
