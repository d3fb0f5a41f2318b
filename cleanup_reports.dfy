/**
 * The report retention cleaner (scripts/cleanup-reports.ts). The working
 * directory is a `FileSystem` object whose entries map names to trees of
 * files and directories, each with an integer modification time in
 * milliseconds; the clock reading is a parameter. `CleanupReports` changes
 * the entries in place and is proved against the specification function
 * `Cleanup`, about which the retention properties are stated.
 */
module CleanupReports {
  import opened Wrappers
  import opened Strings
  import opened Environment

  /** A file with its size in bytes, or a directory with its entries. */
  datatype Node = File(size: nat, mtime: int) | Dir(children: seq<Node>, mtime: int)

  const ReportDir: string := "allure-report"
  const ResultsDir: string := "allure-results"
  const DayMs: int := 24 * 60 * 60 * 1000

  // ---------------------------------------------------------------------------
  // Directory size

  /** The size of a tree: a file's own size, a directory's sum over its entries. */
  function TreeSize(n: Node): int
    decreases n, 1
  {
    match n
    case File(size, _) => size
    case Dir(children, _) => SumSizes(n, |children|)
  }

  /** The sizes of the first `k` entries of directory `d`, added up. */
  function SumSizes(d: Node, k: nat): int
    requires d.Dir? && k <= |d.children|
    decreases d, 0, k
  {
    if k == 0 then 0 else SumSizes(d, k - 1) + TreeSize(d.children[k - 1])
  }

  /** The sizes of all the files in a tree, directories contributing none of their own. */
  function FileSizes(n: Node): seq<nat>
    decreases n, 1
  {
    match n
    case File(size, _) => [size]
    case Dir(children, _) => FileSizesOf(n, |children|)
  }

  function FileSizesOf(d: Node, k: nat): seq<nat>
    requires d.Dir? && k <= |d.children|
    decreases d, 0, k
  {
    if k == 0 then [] else FileSizesOf(d, k - 1) + FileSizes(d.children[k - 1])
  }

  function Sum(xs: seq<nat>): nat {
    if xs == [] then 0 else Sum(xs[..|xs| - 1]) + xs[|xs| - 1]
  }

  lemma {:induction false} SumAppend(a: seq<nat>, b: seq<nat>)
    ensures Sum(a + b) == Sum(a) + Sum(b)
  {
    if b != [] {
      SumAppend(a, b[..|b| - 1]);
      assert (a + b)[..|a + b| - 1] == a + b[..|b| - 1];
    } else {
      assert a + b == a;
    }
  }

  /** The size of a tree is the total size of the files in it. */
  lemma {:induction false} TreeSizeIsFileTotal(n: Node)
    ensures TreeSize(n) == Sum(FileSizes(n))
    decreases n, 1
  {
    if n.Dir? {
      SumSizesIsFileTotal(n, |n.children|);
    } else {
      assert Sum([n.size]) == Sum([]) + n.size;
    }
  }

  lemma {:induction false} SumSizesIsFileTotal(d: Node, k: nat)
    requires d.Dir? && k <= |d.children|
    ensures SumSizes(d, k) == Sum(FileSizesOf(d, k))
    decreases d, 0, k
  {
    if k > 0 {
      var c := d.children[k - 1];
      var before, own := FileSizesOf(d, k - 1), FileSizes(c);
      assert SumSizes(d, k) == SumSizes(d, k - 1) + TreeSize(c);
      assert FileSizesOf(d, k) == before + own;
      SumSizesIsFileTotal(d, k - 1);
      TreeSizeIsFileTotal(c);
      SumAppend(before, own);
    }
  }

  /**
   * `getDirectorySize(dir)`: the loop over the entries adds a file's size
   * and, for a directory, its own size computed the same way.
   */
  method DirectorySize(d: Node) returns (size: int)
    requires d.Dir?
    ensures size == Sum(FileSizes(d))
    decreases d, 1
  {
    size := 0;
    for i := 0 to |d.children|
      invariant size == SumSizes(d, i)
    {
      var child := d.children[i];
      if child.Dir? {
        var s := DirectorySize(child);
        TreeSizeIsFileTotal(child);
        size := size + s;
      } else {
        size := size + child.size;
      }
    }
    TreeSizeIsFileTotal(d);
  }

  // ---------------------------------------------------------------------------
  // Retention

  /** `parseInt(REPORT_RETENTION_DAYS || '30')`; `None` stands for `NaN`. */
  function RetentionDays(env: Env): Option<int> {
    ParseInt(OrDefault(env, "REPORT_RETENTION_DAYS", "30"))
  }

  /**
   * Older than the retention: the age strictly beyond `days * 86400000` ms.
   * A `NaN` retention compares false, so nothing is ever stale.
   */
  predicate Stale(age: int, retention: Option<int>) {
    retention.Some? && age > retention.value * DayMs
  }

  /** What a run reports: the retention read, the deletions counted, the bytes freed and, when the report was kept, its age in whole days. */
  datatype Report = Report(retentionDays: Option<int>, deletedCount: nat, totalSize: int, daysOld: Option<int>)

  /** The result of a run and the entries it leaves. */
  datatype Outcome = Outcome(result: Result<Report, string>, entries: map<string, Node>)

  /** The error of `readdirSync` on a path that is a file. */
  const NotADirectory: string := "ENOTDIR: not a directory"

  /**
   * `cleanupReports()` on the entries of the working directory at time `now`:
   * nothing at all when `allure-report` is absent; otherwise `allure-report`
   * is measured and removed when stale (a stale file in its place makes
   * `readdirSync` fail), its age in days is reported when kept, and
   * `allure-results` is removed when stale.
   */
  function Cleanup(entries: map<string, Node>, env: Env, now: int): Outcome {
    var retention := RetentionDays(env);
    if ReportDir !in entries then Outcome(Ok(Report(retention, 0, 0, None)), entries)
    else
      var report := entries[ReportDir];
      var age := now - report.mtime;
      if Stale(age, retention) && report.File? then Outcome(Err(NotADirectory), entries)
      else
        var deleted := Stale(age, retention);
        var after := if deleted then entries - {ReportDir} else entries;
        var r := Report(retention, if deleted then 1 else 0, if deleted then Sum(FileSizes(report)) else 0,
                        if deleted then None else Some(age / DayMs));
        var final :=
          if ResultsDir in after && Stale(now - after[ResultsDir].mtime, retention) then after - {ResultsDir}
          else after;
        Outcome(Ok(r), final)
  }

  /** The working directory, whose entries the cleaner removes. */
  class FileSystem {
    var entries: map<string, Node>

    constructor(entries: map<string, Node>)
      ensures this.entries == entries
    {
      this.entries := entries;
    }
  }

  /** `cleanupReports()`: the steps of the script, changing the file system in place. */
  method CleanupReports(fs: FileSystem, env: Env, now: int) returns (r: Result<Report, string>)
    modifies fs
    ensures Outcome(r, fs.entries) == Cleanup(old(fs.entries), env, now)
  {
    var retentionDays := RetentionDays(env);
    if ReportDir !in fs.entries {
      return Ok(Report(retentionDays, 0, 0, None));
    }
    var deletedCount := 0;
    var totalSize := 0;
    var daysOld: Option<int> := None;
    var report := fs.entries[ReportDir];
    var ageMs := now - report.mtime;
    if Stale(ageMs, retentionDays) {
      if report.File? {
        return Err(NotADirectory);
      }
      totalSize := DirectorySize(report);
      fs.entries := fs.entries - {ReportDir};
      deletedCount := 1;
    } else {
      daysOld := Some(ageMs / DayMs);
    }
    if ResultsDir in fs.entries {
      var resultsAge := now - fs.entries[ResultsDir].mtime;
      if Stale(resultsAge, retentionDays) {
        fs.entries := fs.entries - {ResultsDir};
      }
    }
    r := Ok(Report(retentionDays, deletedCount, totalSize, daysOld));
  }

  /** Run as a script: exit code 0 when the run completes, 1 when it fails. */
  method RunCleanup(fs: FileSystem, env: Env, now: int) returns (exitCode: int)
    modifies fs
    ensures exitCode == (if Cleanup(old(fs.entries), env, now).result.Ok? then 0 else 1)
    ensures fs.entries == Cleanup(old(fs.entries), env, now).entries
  {
    var r := CleanupReports(fs, env, now);
    exitCode := if r.Ok? then 0 else 1;
  }

  // ---------------------------------------------------------------------------
  // Properties of a run

  /** Unset, the retention is 30 days. */
  lemma DefaultRetention(env: Env)
    requires !IsSet(env, "REPORT_RETENTION_DAYS")
    ensures RetentionDays(env) == Some(30)
  {
    ParseIntToString(30);
    assert NatToString(3) == "3";
    assert IntToString(30) == "30";
  }

  /** Without `allure-report` nothing is removed, not even a stale `allure-results`. */
  lemma NoReportNoChange(entries: map<string, Node>, env: Env, now: int)
    requires ReportDir !in entries
    ensures Cleanup(entries, env, now).entries == entries
    ensures Cleanup(entries, env, now).result == Ok(Report(RetentionDays(env), 0, 0, None))
  {
  }

  /** A report exactly as old as the retention is kept; one millisecond more and it goes. */
  lemma ThresholdIsStrict(entries: map<string, Node>, env: Env, days: int, children: seq<Node>, mtime: int)
    requires RetentionDays(env) == Some(days)
    requires ReportDir in entries && entries[ReportDir] == Dir(children, mtime)
    ensures ReportDir in Cleanup(entries, env, mtime + days * 86400000).entries
    ensures ReportDir !in Cleanup(entries, env, mtime + days * 86400000 + 1).entries
  {
  }

  /** A `NaN` retention never removes anything. */
  lemma NaNKeepsAll(entries: map<string, Node>, env: Env, now: int)
    requires RetentionDays(env).None?
    ensures Cleanup(entries, env, now).entries == entries
    ensures Cleanup(entries, env, now).result.Ok?
  {
  }

  /**
   * The count is 0 or 1 and is 1 exactly when `allure-report` was removed;
   * the size freed is that of the report alone, `allure-results` adding to
   * neither.
   */
  lemma CountsOnlyReport(entries: map<string, Node>, env: Env, now: int)
    requires Cleanup(entries, env, now).result.Ok?
    ensures var o := Cleanup(entries, env, now); var r := o.result.value;
      && (r.deletedCount == 0 || r.deletedCount == 1)
      && (r.deletedCount == 1 <==> ReportDir in entries && ReportDir !in o.entries)
      && r.totalSize == (if r.deletedCount == 1 then Sum(FileSizes(entries[ReportDir])) else 0)
  {
  }

  /** Nothing is added or changed: what is left is as it was. */
  lemma NothingChanged(entries: map<string, Node>, env: Env, now: int, name: string)
    requires name in Cleanup(entries, env, now).entries
    ensures name in entries && Cleanup(entries, env, now).entries[name] == entries[name]
  {
  }

  /** Only `allure-report` and `allure-results` are ever removed. */
  lemma OnlyTwoRemoved(entries: map<string, Node>, env: Env, now: int, name: string)
    requires name in entries && name != ReportDir && name != ResultsDir
    ensures name in Cleanup(entries, env, now).entries
  {
  }

  /** A kept report's age is reported in whole days, rounded down. */
  lemma DaysOldIsFloor(entries: map<string, Node>, env: Env, now: int)
    requires Cleanup(entries, env, now).result.Ok?
    requires Cleanup(entries, env, now).result.value.daysOld.Some?
    ensures var d := Cleanup(entries, env, now).result.value.daysOld.value;
      var age := now - entries[ReportDir].mtime;
      d * 86400000 <= age < (d + 1) * 86400000
  {
  }

  /** `allure-results` goes under the same threshold whether or not the report went. */
  lemma ResultsSameThreshold(entries: map<string, Node>, env: Env, now: int)
    requires ReportDir in entries && ResultsDir in entries
    requires Cleanup(entries, env, now).result.Ok?
    ensures ResultsDir !in Cleanup(entries, env, now).entries
            <==> Stale(now - entries[ResultsDir].mtime, RetentionDays(env))
  {
  }
}
