/**
 * The environment validator (scripts/validate-env.ts). The `.env` existence
 * check and the `allure --version` probe are inputs; the log becomes the
 * list of findings, in the order the checks run.
 */
module ValidateEnv {
  import opened Strings
  import opened Environment

  /** What a check reports. Fatal findings clear the result; the others are warnings only. */
  datatype Finding =
    | MissingEnvFile
    | MissingVariable(name: string)
    | AllureMissing
    | GmailUserNotEmail
    | PasswordNotSixteen
    | BaseUrlNotHttp
    | NoRecipients
  {
    predicate IsFatal() {
      MissingVariable? || AllureMissing? || GmailUserNotEmail? || BaseUrlNotHttp?
    }
  }

  /** The variables the mail step needs. */
  const EmailVars: seq<string> := ["GMAIL_USER", "GMAIL_APP_PASSWORD"]

  /** `GMAIL_USER` is set but holds no `@`. */
  predicate BadUser(env: Env) {
    IsSet(env, "GMAIL_USER") && !Contains(env["GMAIL_USER"], "@")
  }

  /** `GMAIL_APP_PASSWORD` is set but is not 16 UTF-16 code units long. */
  predicate BadPassword(env: Env) {
    IsSet(env, "GMAIL_APP_PASSWORD") && Utf16Length(env["GMAIL_APP_PASSWORD"]) != 16
  }

  /** `BASE_URL` is set but does not start with `http`. */
  predicate BadBaseUrl(env: Env) {
    IsSet(env, "BASE_URL") && !StartsWith(env["BASE_URL"], "http")
  }

  /** Neither recipient list is set. */
  predicate NoRecipientVars(env: Env) {
    !IsSet(env, "EMAIL_RECIPIENTS_PASSED") && !IsSet(env, "EMAIL_RECIPIENTS_FAILED")
  }

  /** The fatal conditions together: what makes the environment valid. */
  predicate EnvironmentValid(env: Env, allureProbeOk: bool) {
    && IsSet(env, "GMAIL_USER")
    && IsSet(env, "GMAIL_APP_PASSWORD")
    && allureProbeOk
    && !BadUser(env)
    && !BadBaseUrl(env)
  }

  predicate NoFatal(findings: seq<Finding>) {
    forall i :: 0 <= i < |findings| ==> !findings[i].IsFatal()
  }

  /** One finding when `cond` holds, none otherwise. */
  function When(cond: bool, f: Finding): seq<Finding> {
    if cond then [f] else []
  }

  /** The missing-variable findings for `vars`, in order. */
  function MissingVars(env: Env, vars: seq<string>): seq<Finding> {
    if vars == [] then []
    else MissingVars(env, vars[..|vars| - 1]) + When(!IsSet(env, vars[|vars| - 1]), MissingVariable(vars[|vars| - 1]))
  }

  /** The findings of all the checks, in the order they run. */
  function Findings(env: Env, envFileExists: bool, allureProbeOk: bool): seq<Finding> {
    When(!envFileExists, MissingEnvFile)
    + MissingVars(env, EmailVars)
    + When(!allureProbeOk, AllureMissing)
    + When(BadUser(env), GmailUserNotEmail)
    + When(BadPassword(env), PasswordNotSixteen)
    + When(BadBaseUrl(env), BaseUrlNotHttp)
    + When(NoRecipientVars(env), NoRecipients)
  }

  /** The loop over the mail variables: all of them set, and a finding for each one that is not. */
  method CheckEmailVars(env: Env) returns (allSet: bool, missing: seq<Finding>)
    ensures allSet <==> IsSet(env, "GMAIL_USER") && IsSet(env, "GMAIL_APP_PASSWORD")
    ensures missing == MissingVars(env, EmailVars)
  {
    allSet := true;
    missing := [];
    for i := 0 to |EmailVars|
      invariant allSet <==> forall j :: 0 <= j < i ==> IsSet(env, EmailVars[j])
      invariant missing == MissingVars(env, EmailVars[..i])
    {
      assert EmailVars[..i + 1][..i] == EmailVars[..i];
      if !IsSet(env, EmailVars[i]) {
        missing := missing + [MissingVariable(EmailVars[i])];
        allSet := false;
      }
    }
    assert EmailVars[..|EmailVars|] == EmailVars;
  }

  /**
   * `validateEnvironment()`: every check runs whatever the earlier ones found
   * and `isValid` starts true and is only ever cleared, so the result is the
   * conjunction of the fatal checks; the findings are those of every check,
   * in order.
   */
  method ValidateEnvironment(env: Env, envFileExists: bool, allureProbeOk: bool)
    returns (isValid: bool, findings: seq<Finding>)
    ensures isValid == EnvironmentValid(env, allureProbeOk)
    ensures findings == Findings(env, envFileExists, allureProbeOk)
  {
    isValid := true;
    findings := [];

    if !envFileExists {
      findings := findings + [MissingEnvFile];
    }
    ghost var seen := findings;
    assert seen == When(!envFileExists, MissingEnvFile);

    var credentialsSet, missing := CheckEmailVars(env);
    findings := findings + missing;
    isValid := credentialsSet;
    seen := findings;

    if !allureProbeOk {
      findings := findings + [AllureMissing];
      isValid := false;
    }
    assert findings == seen + When(!allureProbeOk, AllureMissing);
    seen := findings;

    var badUser := BadUser(env);
    if badUser {
      findings := findings + [GmailUserNotEmail];
      isValid := false;
    }
    assert findings == seen + When(badUser, GmailUserNotEmail);
    seen := findings;

    var badPassword := BadPassword(env);
    if badPassword {
      findings := findings + [PasswordNotSixteen];
    }
    assert findings == seen + When(badPassword, PasswordNotSixteen);
    seen := findings;

    var badBaseUrl := BadBaseUrl(env);
    if badBaseUrl {
      findings := findings + [BaseUrlNotHttp];
      isValid := false;
    }
    assert findings == seen + When(badBaseUrl, BaseUrlNotHttp);
    seen := findings;

    var noRecipients := NoRecipientVars(env);
    if noRecipients {
      findings := findings + [NoRecipients];
    }
    assert findings == seen + When(noRecipients, NoRecipients);
  }

  lemma NoFatalAppend(a: seq<Finding>, b: seq<Finding>)
    ensures NoFatal(a + b) <==> NoFatal(a) && NoFatal(b)
  {
    if NoFatal(a) && NoFatal(b) {
      forall i | 0 <= i < |a + b| ensures !(a + b)[i].IsFatal() {
        if i >= |a| {
          assert (a + b)[i] == b[i - |a|];
        }
      }
    }
    if NoFatal(a + b) {
      forall i | 0 <= i < |a| ensures !a[i].IsFatal() {
        assert (a + b)[i] == a[i];
      }
      forall i | 0 <= i < |b| ensures !b[i].IsFatal() {
        assert (a + b)[|a| + i] == b[i];
      }
    }
  }

  lemma NoFatalWhen(cond: bool, f: Finding)
    ensures NoFatal(When(cond, f)) <==> !(cond && f.IsFatal())
  {
    if cond {
      assert When(cond, f)[0] == f;
    }
  }

  lemma {:induction false} MissingVarsFatal(env: Env, vars: seq<string>)
    ensures NoFatal(MissingVars(env, vars)) <==> forall j :: 0 <= j < |vars| ==> IsSet(env, vars[j])
  {
    if vars != [] {
      var init := vars[..|vars| - 1];
      var last := vars[|vars| - 1];
      MissingVarsFatal(env, init);
      NoFatalAppend(MissingVars(env, init), When(!IsSet(env, last), MissingVariable(last)));
      NoFatalWhen(!IsSet(env, last), MissingVariable(last));
      assert (forall j :: 0 <= j < |vars| ==> IsSet(env, vars[j]))
         <==> (forall j :: 0 <= j < |init| ==> IsSet(env, init[j])) && IsSet(env, last);
    }
  }

  /** The environment is valid exactly when no fatal finding is reported; warnings never matter. */
  lemma ValidIffNoFatal(env: Env, envFileExists: bool, allureProbeOk: bool)
    ensures NoFatal(Findings(env, envFileExists, allureProbeOk)) <==> EnvironmentValid(env, allureProbeOk)
  {
    var a := When(!envFileExists, MissingEnvFile);
    var b := MissingVars(env, EmailVars);
    var c := When(!allureProbeOk, AllureMissing);
    var d := When(BadUser(env), GmailUserNotEmail);
    var e := When(BadPassword(env), PasswordNotSixteen);
    var f := When(BadBaseUrl(env), BaseUrlNotHttp);
    var g := When(NoRecipientVars(env), NoRecipients);
    NoFatalAppend(a, b);
    NoFatalAppend(a + b, c);
    NoFatalAppend(a + b + c, d);
    NoFatalAppend(a + b + c + d, e);
    NoFatalAppend(a + b + c + d + e, f);
    NoFatalAppend(a + b + c + d + e + f, g);
    MissingVarsFatal(env, EmailVars);
    assert NoFatal(b) <==> IsSet(env, "GMAIL_USER") && IsSet(env, "GMAIL_APP_PASSWORD");
    NoFatalWhen(!envFileExists, MissingEnvFile);
    NoFatalWhen(!allureProbeOk, AllureMissing);
    NoFatalWhen(BadUser(env), GmailUserNotEmail);
    NoFatalWhen(BadPassword(env), PasswordNotSixteen);
    NoFatalWhen(BadBaseUrl(env), BaseUrlNotHttp);
    NoFatalWhen(NoRecipientVars(env), NoRecipients);
  }

  lemma {:induction false} MissingVarsMembers(env: Env, vars: seq<string>)
    ensures forall f :: f in MissingVars(env, vars) <==> f.MissingVariable? && f.name in vars && !IsSet(env, f.name)
  {
    if vars != [] {
      var init := vars[..|vars| - 1];
      MissingVarsMembers(env, init);
      assert vars == init + [vars[|vars| - 1]];
    }
  }

  /** A missing credential is reported exactly for each unset mail variable. */
  lemma FindingsMissingExact(env: Env, envFileExists: bool, allureProbeOk: bool, name: string)
    ensures MissingVariable(name) in Findings(env, envFileExists, allureProbeOk)
            <==> name in EmailVars && !IsSet(env, name)
  {
    MissingVarsMembers(env, EmailVars);
  }

  /** Each other finding is reported exactly when its own condition holds. */
  lemma FindingsFlagsExact(env: Env, envFileExists: bool, allureProbeOk: bool, x: Finding)
    requires !x.MissingVariable?
    ensures x in Findings(env, envFileExists, allureProbeOk)
            <==> || (x == MissingEnvFile && !envFileExists)
                 || (x == AllureMissing && !allureProbeOk)
                 || (x == GmailUserNotEmail && BadUser(env))
                 || (x == PasswordNotSixteen && BadPassword(env))
                 || (x == BaseUrlNotHttp && BadBaseUrl(env))
                 || (x == NoRecipients && NoRecipientVars(env))
  {
    MissingVarsMembers(env, EmailVars);
  }

  /** Run as a script: exit code 0 exactly when the environment is valid, 1 otherwise. */
  method ValidateScript(env: Env, envFileExists: bool, allureProbeOk: bool) returns (exitCode: int)
    ensures exitCode == 0 || exitCode == 1
    ensures exitCode == 0 <==> EnvironmentValid(env, allureProbeOk)
  {
    var isValid, _ := ValidateEnvironment(env, envFileExists, allureProbeOk);
    exitCode := if isValid then 0 else 1;
  }

  /** A valid environment has both mail credentials set. */
  lemma ValidHasCredentials(env: Env, allureProbeOk: bool)
    requires EnvironmentValid(env, allureProbeOk)
    ensures IsSet(env, "GMAIL_USER") && IsSet(env, "GMAIL_APP_PASSWORD")
  {
  }

  /** The password length and the recipient variables are warnings only: they never change validity. */
  lemma WarningsNeverFatal(env: Env, allureProbeOk: bool, pw: string, passed: string, failed: string)
    requires IsSet(env, "GMAIL_APP_PASSWORD") && pw != ""
    ensures var env' := env["GMAIL_APP_PASSWORD" := pw]["EMAIL_RECIPIENTS_PASSED" := passed]["EMAIL_RECIPIENTS_FAILED" := failed];
      EnvironmentValid(env', allureProbeOk) == EnvironmentValid(env, allureProbeOk)
  {
  }

  /** The base-URL check only looks at the first four letters: `httpx:` passes. */
  lemma HttpPrefixOnly(env: Env)
    requires env == map["GMAIL_USER" := "qa@example.com", "GMAIL_APP_PASSWORD" := "abcdabcdabcdabcd",
                        "BASE_URL" := "httpx://site"]
    ensures EnvironmentValid(env, true)
  {
    assert OccursAt(env["GMAIL_USER"], "@", 2);
    ContainsAt(env["GMAIL_USER"], "@", 2);
  }

  /** An empty user name fails the presence check alone: the `@` check is skipped. */
  lemma EmptyUserOnlyMissing(env: Env, allureProbeOk: bool)
    requires "GMAIL_USER" in env && env["GMAIL_USER"] == ""
    ensures !EnvironmentValid(env, allureProbeOk)
    ensures !(IsSet(env, "GMAIL_USER") && !Contains(env["GMAIL_USER"], "@"))
  {
  }
}
