# Playwright-Base test pipeline, modelled in Dafny

This project models the scripts that drive a Playwright test run with Allure reporting, and the small helpers the tests share:

- **The orchestrator** (`scripts/test-runner.ts`) runs five steps and turns the outcome into an exit code:
  1. check the environment;
  2. run the tests;
  3. generate the report;
  4. work out the report's URL;
  5. mail the report, retrying on failure.
- **The environment check** (`scripts/validate-env.ts`) decides whether a run may start. It reports fatal errors and warnings.
- **The CI detector** (`scripts/utils/ci-detector.ts`) finds the CI platform from its marker variables and builds each platform's report URL.
- **The retry helper** (`scripts/utils/retry.ts`) calls an operation up to `maxAttempts` times. Between attempts it calls the `onRetry` callback and waits `delayMs * attempt`. The waits grow linearly, whatever the comment in the source says.
- **The report mail** (`scripts/email-sender.ts`) reads the Allure summary, picks the recipient list from the outcome, and builds the subject, the From header and the template context. The company name in the From header is an RFC 2047 encoded word: UTF-8 (RFC 3629, section 3) written in Base64 (RFC 4648, section 4).
- **The report cleaner** (`scripts/cleanup-reports.ts`) removes `allure-report` and `allure-results` once they are older than the retention period, and measures the space freed.
- **Shared helpers:**
  - `formatDate` fills `YYYY`, `MM` and `DD` tokens;
  - `getCurrentLanguage` reads the language off a URL;
  - `getCurrentEnvConfig` picks a configuration from `NODE_ENV`;
  - `getEnvFunction` picks the credential variables.

How things are represented:
- The process environment is a `map<string, string>`. A variable is "set" when it is present and non-empty, which is JavaScript truthiness.
- JavaScript string operations are modelled as the scripts use them, in module `Strings`: `indexOf`/`includes`, a `replace` that replaces only the first occurrence, `split`, `trim`, `padStart`, `String(n)`, `parseInt` and `toUpperCase`.
- Things that come from outside the model are inputs:
  - whether a command succeeds;
  - whether a file exists;
  - the parsed summary;
  - the clock reading;
  - the mail transport's outcome on each attempt.
- The cleaner works on a `FileSystem` object whose entries it removes in place. `CleanupReports` is proved against the specification function `Cleanup`.
- `Retry` is a loop that records a trace of calls, callbacks and waits. It is proved against `FirstOk` and `FailedRounds`.

## Model

| member | source | states |
|---|---|---|
| CiDetector.DetectCIPlatform | scripts/utils/ci-detector.ts:4-13 | the detected platform is never empty (a tag, the override or `local`) |
| CiDetector.DetectIsFirstMarked | scripts/utils/ci-detector.ts:4-13 | the chain of tests equals the reference priority list read top to bottom, then `CI_PLATFORM`, then `local` |
| CiDetector.FirstMarkedIndex | scripts/utils/ci-detector.ts:5-10 | first match wins: row i decides when it is set and no earlier row is |
| CiDetector.FirstMarkedNone | scripts/utils/ci-detector.ts:5-10 | with no marker set the priority list yields nothing |
| CiDetector.DetectFirstMatchWins | scripts/utils/ci-detector.ts:5-10 | the detector returns the tag of the first row set in priority order |
| CiDetector.DetectFallback | scripts/utils/ci-detector.ts:12 | with no marker set the result is `CI_PLATFORM` when set, else `local` |
| CiDetector.GithubWins | scripts/utils/ci-detector.ts:5 | `GITHUB_ACTIONS` set gives `github` whatever else is set |
| CiDetector.AzureEitherMarker | scripts/utils/ci-detector.ts:9 | either `AZURE_PIPELINES` or `TF_BUILD` gives `azure` once the earlier rows are unset |
| CiDetector.OverrideIsUnchecked | scripts/utils/ci-detector.ts:12 | the override is returned unchecked, so `travis` comes back as it is |
| CiDetector.GithubRepo | scripts/utils/ci-detector.ts:24 | the repository is defined only when `GITHUB_REPOSITORY` is present |
| CiDetector.GithubRepoSegment | scripts/utils/ci-detector.ts:24 | for `owner/rest` the repository is the part of `rest` before any further `/` |
| CiDetector.GithubRepoNoSlash | scripts/utils/ci-detector.ts:24 | without a `/` the repository is undefined |
| CiDetector.SplitAtFirst | scripts/utils/ci-detector.ts:24 | splitting at a first separator gives the prefix, then the split of the rest |
| CiDetector.DefaultPlatformIsDetected | scripts/utils/ci-detector.ts:19 | an absent or empty platform argument means the detected platform |
| CiDetector.LocalOrUnknownUrl | scripts/utils/ci-detector.ts:56-60 | `local` and every unknown tag give `http://host:port` |
| CiDetector.LocalDefaultUrl | scripts/utils/ci-detector.ts:58-60 | with neither variable set the local URL is `http://localhost:8080` |
| CiDetector.BuildNumberIgnored | scripts/utils/ci-detector.ts:40-48 | CircleCI and Azure URLs do not depend on the build-number argument |
| CiDetector.OwnBuildVarWins | scripts/utils/ci-detector.ts:22-38 | with the platform's own build variable set, the build-number argument does not matter (github, gitlab, jenkins; bitbucket at lines 50-54) |
| CiDetector.UrlEndsWithRun | scripts/utils/ci-detector.ts:22-54 | the URL of a platform with a build variable is its fixed head, then the run number (the variable, else the argument, else `undefined`), then its tail |
| CiDetector.BuildNumberFallback | scripts/utils/ci-detector.ts:25 | with the build variable unset, the argument (or `undefined`) ends the URL |
| CiDetector.PlatformUrl | scripts/utils/ci-detector.ts:21-60 | definition: each platform's URL template, and the local URL for `local` and unknown tags; its properties are in LocalOrUnknownUrl, BuildNumberIgnored, OwnBuildVarWins and UrlEndsWithRun |
| CiDetector.GetReportUrl | scripts/utils/ci-detector.ts:18-62 | definition: the platform argument when non-empty, else the detected one, then its URL; its property is in DefaultPlatformIsDetected |
| CiDetector.IsCI | scripts/utils/ci-detector.ts:67-69 | CI exactly when `CI` is set, some marker of the priority list is set, or the override is set to anything but `local` |
| CiDetector.FirstMarkedAmong | scripts/utils/ci-detector.ts:5-10 | the priority list answers with the tag of one of its rows, never with a tag no row has |
| CiDetector.MarkerMeansCI | scripts/utils/ci-detector.ts:67-69 | any platform marker set makes `isCI` true, whatever `CI` says |
| CiDetector.LocalOverrideIsNotCI | scripts/utils/ci-detector.ts:67-69 | `CI_PLATFORM=local` with no `CI` and no marker is not CI |
| Retry.Retry | scripts/utils/retry.ts:4-32 | the result is the first success's value, else the last attempt's error, else (with no attempts) the fixed error; the trace is the failed rounds and then the final call; options are integers (see Left out) |
| Retry.FirstOk | scripts/utils/retry.ts:14-16 | the first successful attempt in a range, every earlier one failing; none when all fail |
| Retry.DefaultOptions | scripts/utils/retry.ts:12 | the defaults are 3 attempts and 1000 ms |
| Retry.RunShape | scripts/utils/retry.ts:14-29 | a run ending on attempt k called 1..k, called back 1..k-1 when a callback is given, and waited d, 2d, ..., (k-1)d |
| Retry.RoundsPick | scripts/utils/retry.ts:17-28 | n failed rounds contribute calls 1..n, callbacks 1..n and waits d..nd |
| Retry.CallbackBeforeDelay | scripts/utils/retry.ts:22-27 | each callback is followed at once by the wait of the same attempt |
| Retry.CallsBounded | scripts/utils/retry.ts:14-31 | calls are numbered 1, 2, ... and never exceed `maxAttempts`; a success returns that call's value; a failure rethrows the last attempt's error |
| Retry.PickAppend | scripts/utils/retry.ts:14-29 | projecting a trace distributes over concatenation |
| ValidateEnv.ValidateEnvironment | scripts/validate-env.ts:9-79 | validity is the conjunction of the fatal checks; the findings are every check's, in order |
| ValidateEnv.CheckEmailVars | scripts/validate-env.ts:22-29 | the loop reports all set exactly when both mail variables are set, and one finding per unset variable |
| ValidateEnv.ValidIffNoFatal | scripts/validate-env.ts:9-79 | valid exactly when no fatal finding is reported |
| ValidateEnv.MissingVarsFatal | scripts/validate-env.ts:22-29 | no fatal missing-variable finding exactly when every listed variable is set |
| ValidateEnv.MissingVarsMembers | scripts/validate-env.ts:22-29 | a missing-variable finding is reported exactly for listed, unset variables |
| ValidateEnv.FindingsMissingExact | scripts/validate-env.ts:22-29 | a missing credential is reported exactly for each unset mail variable |
| ValidateEnv.FindingsFlagsExact | scripts/validate-env.ts:16-69 | each other finding appears exactly when its condition holds |
| ValidateEnv.NoFatalAppend | scripts/validate-env.ts:9-79 | no fatal finding in a concatenation exactly when none in either part |
| ValidateEnv.ValidateScript | scripts/validate-env.ts:82-85 | the script exits 0 exactly when the environment is valid, else 1 |
| ValidateEnv.ValidHasCredentials | scripts/validate-env.ts:22-29 | a valid environment has both mail credentials set |
| ValidateEnv.WarningsNeverFatal | scripts/validate-env.ts:49-53 | the password length and the recipient variables never change validity (recipients at lines 63-69) |
| ValidateEnv.HttpPrefixOnly | scripts/validate-env.ts:56-60 | the base-URL check looks only at the prefix `http`, so `httpx:` passes |
| ValidateEnv.EmptyUserOnlyMissing | scripts/validate-env.ts:43-47 | an empty `GMAIL_USER` fails as missing, and the `@` check skips it |
| Encoding.EncodeScalar | scripts/email-sender.ts:86 | one to four UTF-8 bytes by the character's range, continuation bytes after the first |
| Encoding.DecodeEncodeScalar | scripts/email-sender.ts:86 | decoding the bytes of one character gives it back with its byte count |
| Encoding.Utf8Encode | scripts/email-sender.ts:86 | between one and four bytes per character |
| Encoding.Utf8RoundTrip | scripts/email-sender.ts:86 | UTF-8 decoding undoes encoding |
| Encoding.Utf8Ascii | scripts/email-sender.ts:86 | ASCII text is its own UTF-8 form |
| Encoding.Base64Value | scripts/email-sender.ts:86 | the value of an alphabet character, and the character is the alphabet's entry for it |
| Encoding.Base64ValueChar | scripts/email-sender.ts:86 | every sextet's character reads back as that sextet |
| Encoding.OctetsSextets | scripts/email-sender.ts:86 | regrouping three bytes into four sextets and back is lossless |
| Encoding.Base64Encode | scripts/email-sender.ts:86 | definition: groups of three bytes become four characters, the last group padded with `=`; its properties are in Base64Length, Base64Alphabet and Base64RoundTrip |
| Encoding.Base64Length | scripts/email-sender.ts:86 | four characters per started group of three bytes |
| Encoding.Base64Alphabet | scripts/email-sender.ts:86 | every output character is in the alphabet or is `=` |
| Encoding.Base64RoundTrip | scripts/email-sender.ts:86 | Base64 decoding undoes encoding for every length |
| Encoding.VectorF | scripts/email-sender.ts:86 | `f` is `Zg==` (RFC 4648, section 10) |
| Encoding.VectorFo | scripts/email-sender.ts:86 | `fo` is `Zm8=` |
| Encoding.VectorFoo | scripts/email-sender.ts:86 | `foo` is `Zm9v` |
| Encoding.VectorFoobar | scripts/email-sender.ts:86 | the text `foobar` becomes `Zm9vYmFy` |
| EmailSender.SendEmailReport | scripts/email-sender.ts:22-113 | the call's outcome is the decision's error, a normal return with nothing to send, or the transport's outcome; exactly the prepared message is handed over |
| EmailSender.MissingSummaryFails | scripts/email-sender.ts:26-30 | a missing summary throws `Summary file not found at: <cwd>/allure-report/widgets/summary.json` |
| EmailSender.SkipIffNoRecipients | scripts/email-sender.ts:39-46 | nothing is sent exactly when the recipient variable for the outcome is unset or empty |
| EmailSender.AttemptFailsOnlyInTransport | scripts/email-sender.ts:39-111 | with the summary present, a call fails exactly when it has recipients and the transport fails |
| EmailSender.SentMessage | scripts/email-sender.ts:34-106 | the message goes to the trimmed entries of the list the outcome chose, one per entry; its From header is that of the company name; then subject, totals, link, and a failed count covering failed, broken, skipped and unknown |
| EmailSender.Recipients | scripts/email-sender.ts:48 | one recipient per comma-separated entry, empty ones included |
| EmailSender.PrepareEmail | scripts/email-sender.ts:22-107 | the call fails exactly when the summary is missing; a message is only prepared when the outcome's recipient variable is set, and it has at least one recipient |
| EmailSender.EmailAttempt | scripts/email-sender.ts:22-113 | a missing summary always fails the call; with the summary present, a call fails only when the transport fails, and with the transport's error |
| EmailSender.FromHeader | scripts/email-sender.ts:85-90 | definition: the Base64 encoded word of the company name's UTF-8 bytes, then the address; its properties are in FromHeaderDecodes |
| EmailSender.Subject | scripts/email-sender.ts:87-92 | definition: `Automation Tests - company - status`; its properties are in DefaultCompanySubject and SubjectShowsOutcome |
| EmailSender.RecipientsTrimmed | scripts/email-sender.ts:48 | each recipient holds no comma and has no whitespace at either end |
| EmailSender.EmptyEntriesKept | scripts/email-sender.ts:48 | a lone comma gives two empty recipients |
| EmailSender.DefaultCompanySubject | scripts/email-sender.ts:85-92 | with `COMPANY_NAME` unset the subject names `Playwright Tests` |
| EmailSender.SubjectShowsOutcome | scripts/email-sender.ts:87-92 | a passed and a failed run never share a subject |
| EmailSender.FromHeaderDecodes | scripts/email-sender.ts:85-90 | the encoded word decodes to the UTF-8 bytes of the company name, which decode to the name |
| CleanupReports.DirectorySize | scripts/cleanup-reports.ts:31-47 | the size found is the total size of the files in the tree |
| CleanupReports.TreeSizeIsFileTotal | scripts/cleanup-reports.ts:31-47 | the recursive size is the sum of the sizes of all files in the tree |
| CleanupReports.SumAppend | scripts/cleanup-reports.ts:35-44 | the sum over concatenated size lists is the sum of the sums |
| CleanupReports.CleanupReports | scripts/cleanup-reports.ts:8-79 | the result and the entries left equal the specification `Cleanup` of the old entries |
| CleanupReports.RunCleanup | scripts/cleanup-reports.ts:82-88 | the script exits 0 when the cleanup completes, 1 when it fails |
| CleanupReports.Cleanup | scripts/cleanup-reports.ts:8-79 | definition of one run on the working directory's entries; its properties are in NoReportNoChange, ThresholdIsStrict, NaNKeepsAll, CountsOnlyReport, NothingChanged, OnlyTwoRemoved, DaysOldIsFloor and ResultsSameThreshold |
| CleanupReports.RetentionDays | scripts/cleanup-reports.ts:9 | definition: `parseInt` of the variable or of `30`; its property is in DefaultRetention |
| CleanupReports.Stale | scripts/cleanup-reports.ts:20-29 | definition: the age strictly beyond the retention in milliseconds, never for NaN; its properties are in ThresholdIsStrict and NaNKeepsAll |
| CleanupReports.DefaultRetention | scripts/cleanup-reports.ts:9 | an unset retention reads as 30 days |
| CleanupReports.NoReportNoChange | scripts/cleanup-reports.ts:14-17 | without `allure-report`, nothing is removed, not even a stale `allure-results` |
| CleanupReports.ThresholdIsStrict | scripts/cleanup-reports.ts:20-29 | a report exactly at the retention age is kept; one millisecond older is removed |
| CleanupReports.NaNKeepsAll | scripts/cleanup-reports.ts:9-29 | a non-numeric retention removes nothing |
| CleanupReports.CountsOnlyReport | scripts/cleanup-reports.ts:49-53 | the count is 0 or 1, is 1 exactly when the report was removed, and the bytes freed are the report's |
| CleanupReports.NothingChanged | scripts/cleanup-reports.ts:52-69 | whatever remains is exactly as it was |
| CleanupReports.OnlyTwoRemoved | scripts/cleanup-reports.ts:52-69 | only `allure-report` and `allure-results` are ever removed |
| CleanupReports.DaysOldIsFloor | scripts/cleanup-reports.ts:57 | a kept report's age is given in whole days, rounded down |
| CleanupReports.ResultsSameThreshold | scripts/cleanup-reports.ts:63-72 | `allure-results` goes exactly when it is older than the same threshold |
| TestRunner.RunPipeline | scripts/test-runner.ts:17-116 | exit 0 exactly when the environment is valid, the report was generated and the tests passed; no step runs after a failed check; the URL is `REPORT_URL` or the detected platform's; the mail trace has the retry shape |
| TestRunner.MailReport | scripts/test-runner.ts:77-92 | mailing under `retry(…, {3, 2000, onRetry})` leaves a trace of one to three attempts with linear waits, and its failure is swallowed |
| TestRunner.EmailShape | scripts/test-runner.ts:78-88 | the retry result with these options has that trace shape |
| TestRunner.MissingSummaryRetries | scripts/test-runner.ts:78-88 | a missing summary makes all three attempts fail: calls 1,2,3, callbacks 1,2, waits 2000 and 4000 ms |
| TestRunner.NoRecipientsOneAttempt | scripts/test-runner.ts:78-88 | with no recipients for the outcome, one attempt and no wait |
| TestRunner.ReportUrl | scripts/test-runner.ts:55-56 | definition: `REPORT_URL`, else the URL for the detected platform; its property is in ReportUrlOverride |
| TestRunner.CredentialsSkipUnreachable | scripts/test-runner.ts:73-75 | the "credentials not configured" branch cannot be reached after a passed check |
| TestRunner.ReportUrlOverride | scripts/test-runner.ts:56 | `REPORT_URL`, when set, wins over the detected platform's URL |
| DataHelpers.FormatDate | tests/support/helpers/data.helpers.ts:53-62 | definition: the three chained first-occurrence replacements; its properties are in YearFirstFormat, DefaultFormatShape, DayFirstFormat, FirstOccurrenceOnly and NoTokensUnchanged |
| DataHelpers.YearFirstFormat | tests/support/helpers/data.helpers.ts:53-61 | year unpadded, then month (0-based plus one) and day padded to two digits, separators kept |
| DataHelpers.DefaultFormatShape | tests/support/helpers/data.helpers.ts:53-61 | the default `YYYY-MM-DD` gives year, dash, two month digits, dash, two day digits |
| DataHelpers.DayFirstFormat | tests/support/helpers/data.helpers.ts:58-61 | tokens in any order receive their own values |
| DataHelpers.FirstOccurrenceOnly | tests/support/helpers/data.helpers.ts:59-61 | only the first occurrence of a token is replaced |
| DataHelpers.NoTokensUnchanged | tests/support/helpers/data.helpers.ts:58-61 | a format with no token is returned unchanged |
| DataHelpers.TwoDigitsValue | tests/support/helpers/data.helpers.ts:55-56 | a value from 1 to 99 is written as its tens digit then its units digit |
| HomePage.GetCurrentLanguage | tests/pageObjects/passion-dental/home.page.ts:61-66 | the answer is always `vi`, `en` or `unknown` |
| HomePage.VietnameseIff | tests/pageObjects/passion-dental/home.page.ts:63 | `vi` exactly when the URL contains `/vi`, even with `/en` as well |
| HomePage.EnglishIff | tests/pageObjects/passion-dental/home.page.ts:63-64 | `en` exactly when the URL contains `/en` but not `/vi` |
| HomePage.UnknownIff | tests/pageObjects/passion-dental/home.page.ts:65 | `unknown` exactly when it contains neither |
| HomePage.SubstringNotSegment | tests/pageObjects/passion-dental/home.page.ts:63 | `/video` reads as Vietnamese: matching is by substring |
| HomePage.EntryReadsEnglish | tests/pageObjects/passion-dental/home.page.ts:64 | `/entry` without `/vi` reads as English |
| EnvConfig.GetCurrentEnvConfig | config/environments/index.ts:17-31 | definition: the switch on the upper-cased `NODE_ENV`; its properties are in the lemmas below |
| EnvConfig.OtherIsDev | config/environments/index.ts:26-29 | any name whose upper case is not `PROD`, `PRODUCTION` or `STAGING` gives dev |
| EnvConfig.UnsetIsDev | config/environments/index.ts:18 | unset or empty `NODE_ENV` gives the dev configuration |
| EnvConfig.ProdAnyCase | config/environments/index.ts:20-23 | `prod` or `production` in any letter case gives prod |
| EnvConfig.StagingAnyCase | config/environments/index.ts:24-25 | `staging` in any case gives staging |
| EnvConfig.DevelopmentIsDev | config/environments/index.ts:26-30 | `development` in any case gives dev |
| EnvConfig.ProductionMismatch | config/environments/index.ts:20-23 | `NODE_ENV=production` selects the prod configuration but the DEV credential variables (tests/support/helpers/env.helpers.ts:3) |
| EnvHelpers.GetEnvFunction | tests/support/helpers/env.helpers.ts:1-10 | definition: the three variables under one suffix; its properties are in FieldsShareSuffix, ProdVariables and DevVariables |
| EnvHelpers.EnvSuffix | tests/support/helpers/env.helpers.ts:3 | the suffix is `PROD` or `DEV` |
| EnvHelpers.ProdIffExact | tests/support/helpers/env.helpers.ts:3 | `PROD` exactly when `NODE_ENV` is exactly `PROD`, letter case included |
| EnvHelpers.FieldsShareSuffix | tests/support/helpers/env.helpers.ts:5-9 | all three fields use the same suffix and come back as stored, or undefined when absent |
| EnvHelpers.ProdVariables | tests/support/helpers/env.helpers.ts:6-8 | the production names are `USERNAME_PROD`, `PASSWORD_PROD`, `PROD_ENV` |
| EnvHelpers.DevVariables | tests/support/helpers/env.helpers.ts:6-8 | any other value reads `USERNAME_DEV`, `PASSWORD_DEV`, `DEV_ENV` |
| Strings.IndexOf | tests/pageObjects/passion-dental/home.page.ts:63-64 | -1 exactly when there is no occurrence; otherwise the first occurrence |
| Strings.ReplaceFirst | tests/support/helpers/data.helpers.ts:59-61 | unchanged when the pattern is absent; otherwise only the first occurrence is replaced |
| Strings.Split | scripts/email-sender.ts:48 | at least one piece |
| Strings.SplitCount | scripts/email-sender.ts:48 | one piece more than there are separators |
| Strings.SplitPiecesFree | scripts/email-sender.ts:48 | no piece holds the separator |
| Strings.JoinSplit | scripts/email-sender.ts:48 | joining the pieces gives the input back |
| Strings.Trim | scripts/email-sender.ts:48 | the result is a slice of the input with only whitespace cut from either end |
| Strings.TrimEnds | scripts/email-sender.ts:48 | what `trim` leaves has no whitespace at either end |
| Strings.Utf16Length | scripts/validate-env.ts:50 | between one and two code units per character, one each below U+10000 |
| Strings.PadStart | tests/support/helpers/data.helpers.ts:55-56 | the padded length is the larger of the two, with the input at the end and pad characters before it |
| Strings.NatToStringValue | tests/support/helpers/data.helpers.ts:54-56 | the decimal text of n reads back as n |
| Strings.ParseIntToString | scripts/cleanup-reports.ts:9 | `parseInt(String(i))` is i for every integer |
| Strings.Contains | tests/pageObjects/passion-dental/home.page.ts:63-64 | true exactly when the pattern occurs at some index |
| Strings.ParseInt | scripts/cleanup-reports.ts:9 | definition: leading whitespace, sign, `0x` prefix, longest digit run, NaN without digits; its property is in ParseIntToString |
| Strings.ToUpperCase | config/environments/index.ts:20 | never shortens the text; on ASCII text it capitalises each letter and keeps every other character, one for one |
| Strings.ToUpperCaseVariant | config/environments/index.ts:20 | any letter-case spelling of an upper-case ASCII word upper-cases to that word |

## Left out

- **Not modelled:**
  - the logger and console output, including the progress and summary lines of every script;
  - `async`/`await`, which never interleaves here.
- **Outside the model, and inputs instead:**
  - the commands run with `execSync` (`npx playwright test`, `npm run allure:generate`, `allure --version`): their success is an input;
  - `process.exit`: it becomes a returned exit code.
- **The mail transport:** nodemailer, the Handlebars templates and the Gmail transport are outside the model, and whether a hand-over succeeds is an input per attempt.
  - EmailSender.EmailAttempt: the transport's own error is represented by one fixed text, `TransportError`.
- **The mail context:** the date texts `month`, `date` and `content` are built with `toLocaleString`, which depends on the locale and the clock. They are left out of it.
- **The summary file:** it is an input, the parsed statistic or nothing when it is missing.
  - JSON that fails to parse, and counts that are not integers, are not modelled.
- **Paths:** `path.join` is modelled as plain concatenation with `/`, without normalisation.
- **The report cleaner:**
  - the clock reading is a parameter;
  - modification times are whole milliseconds, where the source's `mtimeMs` may be fractional;
  - symbolic links, permission errors and `readdirSync` failures are not modelled, except the one for a stale `allure-report` that is a file;
  - the sizes in MB are only displayed, with floating-point division, and are not modelled.
- `formatDate`:
  - it takes the date's calendar fields as an input, and the clock reading behind the default `new Date()` is not modelled;
  - `randomString` and the other data helpers are not part of this model.
- `getCurrentLanguage`: it takes the page URL as a parameter. The other page-object methods are browser calls and are left out.
- `getCurrentEnvConfig`:
  - the configurations are named, not built;
  - config/environments/staging.ts and config/environments/prod.ts are not part of this model.
- Retry.Retry: `maxAttempts` and `delayMs` are taken as integers. With a fractional `maxAttempts` the source makes its last attempts, calls back and waits after each, and then throws its fixed error. The model does not capture that. Every caller passes integer constants.
- `parseInt`: numbers beyond 2^53, which lose precision in JavaScript, are not modelled.
- Strings.ToUpperCase: it maps exactly the ASCII letters and the non-ASCII characters whose upper case is made of ASCII letters only: ß, dotless ı, long ſ and the ligatures U+FB00–U+FB06. Every other character is left unchanged, where JavaScript maps it to its own upper case (which may also expand, as ŉ or ǰ do). Comparisons of the result with an ASCII word decide the same either way.
- Encoding.Utf8Encode: JavaScript strings may hold lone surrogates, which `Buffer.from` replaces with U+FFFD. Dafny characters are Unicode scalar values, so those strings are not modelled.
- Encoding.Base64Decode: it is the partner that shows the encoder loses nothing, and it is not part of the source. It accepts any value in the unused low bits of a padded group.
- TestRunner.RunPipeline:
  - the outer `catch` (scripts/test-runner.ts:112-115) is not modelled, because no modelled step throws past its own handler;
  - the platform log lines are not modelled.
