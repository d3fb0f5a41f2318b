/**
 * CI platform detection and report-URL building
 * (scripts/utils/ci-detector.ts).
 */
module CiDetector {
  import opened Wrappers
  import opened Strings
  import opened Environment

  /** One row of the priority list: the platform is detected when any of `vars` is set. */
  datatype Marker = Marker(vars: seq<string>, tag: string)

  /** The detection order, first match wins. */
  const Markers: seq<Marker> := [
    Marker(["GITHUB_ACTIONS"], "github"),
    Marker(["GITLAB_CI"], "gitlab"),
    Marker(["JENKINS_URL"], "jenkins"),
    Marker(["CIRCLECI"], "circleci"),
    Marker(["AZURE_PIPELINES", "TF_BUILD"], "azure"),
    Marker(["BITBUCKET_PIPELINE_UUID"], "bitbucket")
  ]

  /** Some variable of `vars` is set. */
  predicate AnySet(env: Env, vars: seq<string>) {
    |vars| > 0 && (IsSet(env, vars[0]) || AnySet(env, vars[1..]))
  }

  /** The tags `getReportUrl` builds a platform URL for. */
  const KnownTags: set<string> := {"github", "gitlab", "jenkins", "circleci", "azure", "bitbucket"}

  /** Reference definition of the priority list: the tag of the first row with a variable set. */
  function FirstMarked(env: Env, ms: seq<Marker>): Option<string> {
    if ms == [] then None
    else if AnySet(env, ms[0].vars) then Some(ms[0].tag)
    else FirstMarked(env, ms[1..])
  }

  /** First match wins: row `i` decides when it is set and no earlier row is. */
  lemma {:induction false} FirstMarkedIndex(env: Env, ms: seq<Marker>, i: int)
    requires 0 <= i < |ms| && AnySet(env, ms[i].vars)
    requires forall j :: 0 <= j < i ==> !AnySet(env, ms[j].vars)
    ensures FirstMarked(env, ms) == Some(ms[i].tag)
  {
    if i > 0 {
      assert !AnySet(env, ms[0].vars);
      FirstMarkedIndex(env, ms[1..], i - 1);
    }
  }

  lemma {:induction false} FirstMarkedNone(env: Env, ms: seq<Marker>)
    requires forall j :: 0 <= j < |ms| ==> !AnySet(env, ms[j].vars)
    ensures FirstMarked(env, ms) == None
  {
    if ms != [] {
      FirstMarkedNone(env, ms[1..]);
    }
  }

  /**
   * `detectCIPlatform()`: the tag of the first marker set; with none set, the
   * `CI_PLATFORM` override when set, else `local`. The override is returned
   * as it is, so the result can be any non-empty string.
   */
  function DetectCIPlatform(env: Env): (r: string)
    ensures r != ""
  {
    if IsSet(env, "GITHUB_ACTIONS") then "github"
    else if IsSet(env, "GITLAB_CI") then "gitlab"
    else if IsSet(env, "JENKINS_URL") then "jenkins"
    else if IsSet(env, "CIRCLECI") then "circleci"
    else if IsSet(env, "AZURE_PIPELINES") || IsSet(env, "TF_BUILD") then "azure"
    else if IsSet(env, "BITBUCKET_PIPELINE_UUID") then "bitbucket"
    else OrDefault(env, "CI_PLATFORM", "local")
  }

  lemma AnySetOne(env: Env, a: string)
    ensures AnySet(env, [a]) <==> IsSet(env, a)
  {
    assert [a][1..] == [];
  }

  lemma AnySetTwo(env: Env, a: string, b: string)
    ensures AnySet(env, [a, b]) <==> IsSet(env, a) || IsSet(env, b)
  {
    assert [a, b][1..] == [b];
    AnySetOne(env, b);
  }

  /** The chain of tests in the detector is the priority list read top to bottom, then the override. */
  lemma DetectIsFirstMarked(env: Env)
    ensures DetectCIPlatform(env) == match FirstMarked(env, Markers)
      case Some(t) => t
      case None => if IsSet(env, "CI_PLATFORM") then env["CI_PLATFORM"] else "local"
  {
    var ms := Markers;
    AnySetOne(env, "GITHUB_ACTIONS");
    AnySetOne(env, "GITLAB_CI");
    AnySetOne(env, "JENKINS_URL");
    AnySetOne(env, "CIRCLECI");
    AnySetTwo(env, "AZURE_PIPELINES", "TF_BUILD");
    AnySetOne(env, "BITBUCKET_PIPELINE_UUID");
    var m1 := ms[1..];
    var m2 := m1[1..];
    var m3 := m2[1..];
    var m4 := m3[1..];
    var m5 := m4[1..];
    var m6 := m5[1..];
    assert m6 == [];
    assert FirstMarked(env, m6) == None;
    assert m5[0] == Marker(["BITBUCKET_PIPELINE_UUID"], "bitbucket");
    assert FirstMarked(env, m5) == if IsSet(env, "BITBUCKET_PIPELINE_UUID") then Some("bitbucket") else None;
    assert m4[0] == Marker(["AZURE_PIPELINES", "TF_BUILD"], "azure");
    assert FirstMarked(env, m4) == if AnySet(env, m4[0].vars) then Some("azure") else FirstMarked(env, m5);
    assert m3[0] == Marker(["CIRCLECI"], "circleci");
    assert FirstMarked(env, m3) == if AnySet(env, m3[0].vars) then Some("circleci") else FirstMarked(env, m4);
    assert m2[0] == Marker(["JENKINS_URL"], "jenkins");
    assert FirstMarked(env, m2) == if AnySet(env, m2[0].vars) then Some("jenkins") else FirstMarked(env, m3);
    assert m1[0] == Marker(["GITLAB_CI"], "gitlab");
    assert FirstMarked(env, m1) == if AnySet(env, m1[0].vars) then Some("gitlab") else FirstMarked(env, m2);
    assert FirstMarked(env, ms) == if AnySet(env, ms[0].vars) then Some("github") else FirstMarked(env, m1);
  }

  /** The detected tag is the first row set in priority order; with none set, the override or `local`. */
  lemma DetectFirstMatchWins(env: Env, i: int)
    requires 0 <= i < |Markers| && AnySet(env, Markers[i].vars)
    requires forall j :: 0 <= j < i ==> !AnySet(env, Markers[j].vars)
    ensures DetectCIPlatform(env) == Markers[i].tag
  {
    DetectIsFirstMarked(env);
    FirstMarkedIndex(env, Markers, i);
  }

  lemma DetectFallback(env: Env)
    requires forall j :: 0 <= j < |Markers| ==> !AnySet(env, Markers[j].vars)
    ensures DetectCIPlatform(env) == if IsSet(env, "CI_PLATFORM") then env["CI_PLATFORM"] else "local"
  {
    DetectIsFirstMarked(env);
    FirstMarkedNone(env, Markers);
  }

  lemma GithubWins(env: Env)
    requires IsSet(env, "GITHUB_ACTIONS")
    ensures DetectCIPlatform(env) == "github"
  {
  }

  /** Either Azure marker detects Azure, once no higher-priority marker is set. */
  lemma AzureEitherMarker(env: Env)
    requires !IsSet(env, "GITHUB_ACTIONS") && !IsSet(env, "GITLAB_CI")
    requires !IsSet(env, "JENKINS_URL") && !IsSet(env, "CIRCLECI")
    requires IsSet(env, "AZURE_PIPELINES") || IsSet(env, "TF_BUILD")
    ensures DetectCIPlatform(env) == "azure"
  {
  }

  /** The override can make the detector return a tag outside the seven known ones. */
  lemma OverrideIsUnchecked(env: Env)
    requires env == map["CI_PLATFORM" := "travis"]
    ensures DetectCIPlatform(env) == "travis"
  {
  }

  /** `GITHUB_REPOSITORY?.split('/')[1]`: the piece after the first `/`, if there is one. */
  function GithubRepo(env: Env): (r: Option<string>)
    ensures r.Some? ==> "GITHUB_REPOSITORY" in env
  {
    match Lookup(env, "GITHUB_REPOSITORY")
    case None => None
    case Some(full) =>
      var parts := Split(full, '/');
      if |parts| >= 2 then Some(parts[1]) else None
  }

  lemma {:induction false} SplitNoSeparator(s: string, sep: char)
    requires sep !in s
    ensures Split(s, sep) == [s]
  {
    if s != [] {
      SplitNoSeparator(s[1..], sep);
      assert s == [s[0]] + s[1..];
    }
  }

  lemma {:induction false} SplitAtFirst(a: string, b: string, sep: char)
    requires sep !in a
    ensures Split(a + [sep] + b, sep) == [a] + Split(b, sep)
  {
    if a == [] {
      assert a + [sep] + b == [sep] + b;
      assert ([sep] + b)[1..] == b;
    } else {
      SplitAtFirst(a[1..], b, sep);
      assert (a + [sep] + b)[1..] == a[1..] + [sep] + b;
      assert a == [a[0]] + a[1..];
    }
  }

  lemma {:induction false} SplitHead(s: string, sep: char)
    ensures var h := Split(s, sep)[0];
      |h| <= |s| && h == s[..|h|] && sep !in h && (|h| < |s| ==> s[|h|] == sep)
  {
    if s != [] {
      SplitHead(s[1..], sep);
    }
  }

  /**
   * The repository name read from `GITHUB_REPOSITORY = a + "/" + b` (with no `/`
   * in `a`) is the longest prefix of `b` holding no `/`; with no `/` at all it
   * is undefined.
   */
  lemma GithubRepoSegment(env: Env, a: string, b: string)
    requires "GITHUB_REPOSITORY" in env && env["GITHUB_REPOSITORY"] == a + "/" + b
    requires '/' !in a
    ensures GithubRepo(env).Some?
    ensures var r := GithubRepo(env).value;
      |r| <= |b| && r == b[..|r|] && '/' !in r && (|r| < |b| ==> b[|r|] == '/')
  {
    SplitAtFirst(a, b, '/');
    SplitHead(b, '/');
  }

  lemma GithubRepoNoSlash(env: Env)
    requires "GITHUB_REPOSITORY" in env && '/' !in env["GITHUB_REPOSITORY"]
    ensures GithubRepo(env) == None
  {
    SplitNoSeparator(env["GITHUB_REPOSITORY"], '/');
  }

  /** The URL of the locally served report, `http://host:port`. */
  function LocalUrl(env: Env): string {
    "http://" + OrDefault(env, "REPORT_SERVER_HOST", "localhost") + ":" + OrDefault(env, "REPORT_SERVER_PORT", "8080")
  }

  /** The URL of the report for a given (non-empty) platform tag. */
  function PlatformUrl(env: Env, p: string, buildNumber: Option<string>): string {
    match p
    case "github" =>
      "https://" + Interpolate(Lookup(env, "GITHUB_REPOSITORY_OWNER")) + ".github.io/"
      + Interpolate(GithubRepo(env)) + "/reports/" + Interpolate(OrElse(env, "GITHUB_RUN_NUMBER", buildNumber))
    case "gitlab" =>
      "https://" + Interpolate(Lookup(env, "CI_PROJECT_NAMESPACE")) + ".gitlab.io/"
      + Interpolate(Lookup(env, "CI_PROJECT_NAME")) + "/reports/" + Interpolate(OrElse(env, "CI_PIPELINE_ID", buildNumber))
    case "jenkins" =>
      Interpolate(Lookup(env, "JENKINS_URL")) + "job/" + Interpolate(Lookup(env, "JOB_NAME")) + "/"
      + Interpolate(OrElse(env, "BUILD_NUMBER", buildNumber)) + "/allure/"
    case "circleci" =>
      "https://output.circle-artifacts.com/output/job/" + Interpolate(Lookup(env, "CIRCLE_WORKFLOW_JOB_ID"))
      + "/artifacts/" + OrDefault(env, "CIRCLE_NODE_INDEX", "0") + "/allure-report/index.html"
    case "azure" =>
      "https://dev.azure.com/" + Interpolate(Lookup(env, "SYSTEM_TEAMPROJECT")) + "/_build/results?buildId="
      + Interpolate(Lookup(env, "BUILD_BUILDID"))
    case "bitbucket" =>
      "https://bitbucket.org/" + Interpolate(Lookup(env, "BITBUCKET_WORKSPACE")) + "/"
      + Interpolate(Lookup(env, "BITBUCKET_REPO_SLUG")) + "/downloads/allure-report-"
      + Interpolate(OrElse(env, "BITBUCKET_BUILD_NUMBER", buildNumber)) + ".zip"
    case _ => LocalUrl(env)
  }

  /** `getReportUrl(platform?, buildNumber?)`: an absent or empty platform means the detected one. */
  function GetReportUrl(env: Env, platform: Option<string>, buildNumber: Option<string>): string {
    var p := if platform.Some? && platform.value != "" then platform.value else DetectCIPlatform(env);
    PlatformUrl(env, p, buildNumber)
  }

  lemma DefaultPlatformIsDetected(env: Env, buildNumber: Option<string>)
    ensures GetReportUrl(env, None, buildNumber) == GetReportUrl(env, Some(DetectCIPlatform(env)), buildNumber)
    ensures GetReportUrl(env, Some(""), buildNumber) == GetReportUrl(env, Some(DetectCIPlatform(env)), buildNumber)
  {
  }

  /** `local` and every tag without a case of its own give exactly `http://host:port`, defaulting to localhost:8080. */
  lemma LocalOrUnknownUrl(env: Env, p: string, buildNumber: Option<string>)
    requires p != "" && p !in KnownTags
    ensures GetReportUrl(env, Some(p), buildNumber)
            == "http://" + (if IsSet(env, "REPORT_SERVER_HOST") then env["REPORT_SERVER_HOST"] else "localhost")
               + ":" + (if IsSet(env, "REPORT_SERVER_PORT") then env["REPORT_SERVER_PORT"] else "8080")
  {
  }

  lemma LocalDefaultUrl(env: Env)
    requires !IsSet(env, "REPORT_SERVER_HOST") && !IsSet(env, "REPORT_SERVER_PORT")
    ensures GetReportUrl(env, Some("local"), None) == "http://localhost:8080"
  {
  }

  /** The CircleCI and Azure URLs never depend on the build-number argument. */
  lemma BuildNumberIgnored(env: Env, p: string, b1: Option<string>, b2: Option<string>)
    requires p == "circleci" || p == "azure"
    ensures GetReportUrl(env, Some(p), b1) == GetReportUrl(env, Some(p), b2)
  {
  }

  /** The platform's own build variable, which takes precedence over the build-number argument. */
  function BuildVar(p: string): Option<string> {
    match p
    case "github" => Some("GITHUB_RUN_NUMBER")
    case "gitlab" => Some("CI_PIPELINE_ID")
    case "jenkins" => Some("BUILD_NUMBER")
    case "bitbucket" => Some("BITBUCKET_BUILD_NUMBER")
    case _ => None
  }

  /** With its own build variable set, a platform's URL does not depend on the build-number argument. */
  lemma OwnBuildVarWins(env: Env, p: string, b1: Option<string>, b2: Option<string>)
    requires BuildVar(p).Some? && IsSet(env, BuildVar(p).value)
    ensures GetReportUrl(env, Some(p), b1) == GetReportUrl(env, Some(p), b2)
  {
    UrlEndsWithRun(env, p, b1);
    UrlEndsWithRun(env, p, b2);
  }

  predicate EndsWith(s: string, t: string) {
    |t| <= |s| && s[|s| - |t|..] == t
  }

  lemma EndsWithConcat(h: string, t: string)
    ensures EndsWith(h + t, t)
  {
    assert (h + t)[|h|..] == t;
  }

  /** What ends a platform's URL after the run number. */
  function RunTail(p: string, run: string): string {
    match p
    case "github" => "/reports/" + run
    case "gitlab" => "/reports/" + run
    case "jenkins" => "/" + run + "/allure/"
    case _ => "/downloads/allure-report-" + run + ".zip"
  }

  /** What precedes the run number in the URL of a platform with a build variable. */
  function UrlHead(env: Env, p: string): string {
    match p
    case "github" =>
      "https://" + Interpolate(Lookup(env, "GITHUB_REPOSITORY_OWNER")) + ".github.io/" + Interpolate(GithubRepo(env))
    case "gitlab" =>
      "https://" + Interpolate(Lookup(env, "CI_PROJECT_NAMESPACE")) + ".gitlab.io/" + Interpolate(Lookup(env, "CI_PROJECT_NAME"))
    case "jenkins" =>
      Interpolate(Lookup(env, "JENKINS_URL")) + "job/" + Interpolate(Lookup(env, "JOB_NAME"))
    case _ =>
      "https://bitbucket.org/" + Interpolate(Lookup(env, "BITBUCKET_WORKSPACE")) + "/" + Interpolate(Lookup(env, "BITBUCKET_REPO_SLUG"))
  }

  lemma GithubUrlShape(env: Env, b: Option<string>)
    ensures PlatformUrl(env, "github", b)
            == UrlHead(env, "github") + RunTail("github", Interpolate(OrElse(env, "GITHUB_RUN_NUMBER", b)))
  {
  }

  lemma GitlabUrlShape(env: Env, b: Option<string>)
    ensures PlatformUrl(env, "gitlab", b)
            == UrlHead(env, "gitlab") + RunTail("gitlab", Interpolate(OrElse(env, "CI_PIPELINE_ID", b)))
  {
  }

  lemma JenkinsUrlShape(env: Env, b: Option<string>)
    ensures PlatformUrl(env, "jenkins", b)
            == UrlHead(env, "jenkins") + RunTail("jenkins", Interpolate(OrElse(env, "BUILD_NUMBER", b)))
  {
  }

  lemma BitbucketUrlShape(env: Env, b: Option<string>)
    ensures PlatformUrl(env, "bitbucket", b)
            == UrlHead(env, "bitbucket") + RunTail("bitbucket", Interpolate(OrElse(env, "BITBUCKET_BUILD_NUMBER", b)))
  {
  }

  /** A platform with a build variable ends its URL with that variable, or else the argument. */
  lemma UrlEndsWithRun(env: Env, p: string, b: Option<string>)
    requires BuildVar(p).Some?
    ensures GetReportUrl(env, Some(p), b)
            == UrlHead(env, p) + RunTail(p, Interpolate(OrElse(env, BuildVar(p).value, b)))
  {
    assert GetReportUrl(env, Some(p), b) == PlatformUrl(env, p, b);
    if p == "github" {
      GithubUrlShape(env, b);
    } else if p == "gitlab" {
      GitlabUrlShape(env, b);
    } else if p == "jenkins" {
      JenkinsUrlShape(env, b);
    } else {
      BitbucketUrlShape(env, b);
    }
  }

  /** With its own build variable unset, the argument (or `undefined`) is what ends the URL. */
  lemma BuildNumberFallback(env: Env, p: string, b: Option<string>)
    requires BuildVar(p).Some? && !IsSet(env, BuildVar(p).value)
    ensures EndsWith(GetReportUrl(env, Some(p), b), RunTail(p, Interpolate(b)))
  {
    UrlEndsWithRun(env, p, b);
    EndsWithConcat(UrlHead(env, p), RunTail(p, Interpolate(b)));
  }

  /**
   * `isCI()`: the generic `CI` flag, or any detected platform other than
   * `local`. In terms of the priority list: `CI`, or some marker, or an
   * override other than `local`.
   */
  predicate IsCI(env: Env): (b: bool)
    ensures b <==> || IsSet(env, "CI")
                   || FirstMarked(env, Markers).Some?
                   || (IsSet(env, "CI_PLATFORM") && env["CI_PLATFORM"] != "local")
  {
    DetectIsFirstMarked(env);
    FirstMarkedAmong(env, Markers, "local");
    IsSet(env, "CI") || DetectCIPlatform(env) != "local"
  }

  /** The priority list answers with the tag of one of its rows, so never with a tag no row has. */
  lemma {:induction false} FirstMarkedAmong(env: Env, ms: seq<Marker>, t: string)
    requires forall j :: 0 <= j < |ms| ==> ms[j].tag != t
    ensures FirstMarked(env, ms) != Some(t)
  {
    if ms != [] && !AnySet(env, ms[0].vars) {
      FirstMarkedAmong(env, ms[1..], t);
    }
  }

  lemma {:induction false} FirstMarkedSome(env: Env, ms: seq<Marker>, i: int)
    requires 0 <= i < |ms| && AnySet(env, ms[i].vars)
    ensures FirstMarked(env, ms).Some?
    ensures exists j :: 0 <= j <= i && FirstMarked(env, ms) == Some(ms[j].tag)
  {
    if !AnySet(env, ms[0].vars) {
      FirstMarkedSome(env, ms[1..], i - 1);
      var j :| 0 <= j <= i - 1 && FirstMarked(env, ms[1..]) == Some(ms[1..][j].tag);
      assert FirstMarked(env, ms) == Some(ms[j + 1].tag);
    }
  }

  /** Any platform marker set makes the run count as CI, whatever `CI` says. */
  lemma MarkerMeansCI(env: Env, i: int)
    requires 0 <= i < |Markers| && AnySet(env, Markers[i].vars)
    ensures IsCI(env)
  {
    DetectIsFirstMarked(env);
    FirstMarkedSome(env, Markers, i);
  }

  /** `CI_PLATFORM=local` without `CI` and without markers is not CI. */
  lemma LocalOverrideIsNotCI(env: Env)
    requires forall i :: 0 <= i < |Markers| ==> !AnySet(env, Markers[i].vars)
    requires !IsSet(env, "CI") && "CI_PLATFORM" in env && env["CI_PLATFORM"] == "local"
    ensures !IsCI(env)
  {
    DetectFallback(env);
  }
}
