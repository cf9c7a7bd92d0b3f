/**
 * `VolatilityTask.run` itself: the objects it updates in place (the task
 * result, the output evidence), the collaborators it calls (the process
 * supervisor, the filesystem) and the run, which closes the result exactly once
 * unless opening or reading the report raises.
 */
module Task {
  import opened Wrappers
  import opened Text
  import opened Utf8
  import opened Command
  import opened Finalizer

  /** The input evidence: read, never changed. */
  datatype Evidence = Evidence(localPath: string, profile: string)

  /** The entries `run` writes to the result's log, with the facts each one carries. */
  datatype LogEntry =
    | Running(commandLine: string)
    | StatFailed(path: string, error: string)
    | Truncated(size: nat, maxSize: nat)

  /** The text of a log entry. */
  function Message(e: LogEntry): string
  {
    match e
    case Running(line) => "Running volatility as [" + line + "]"
    case StatFailed(path, error) => "Unable to determine size of output file " + path + ": " + error
    case Truncated(size, maxSize) =>
      "Volatility report output size (" + Decimal(size) + ") is greater than max report " +
      "size (" + Decimal(maxSize) + "). Truncating report to max size"
  }

  /** The `VolatilityReport` evidence the task produces. */
  class VolatilityReport {
    const sourcePath: string
    var textData: Option<string>

    /** The initial `text_data` belongs to the evidence class and is left unspecified. */
    constructor (sourcePath: string)
      ensures this.sourcePath == sourcePath
    {
      this.sourcePath := sourcePath;
      textData := None;
    }
  }

  /** The `TurbiniaTaskResult` the task fills in and closes. */
  class TaskResult {
    var log: seq<LogEntry>
    var reportData: Option<string>
    var closed: bool
    var success: bool
    var status: string

    constructor ()
      ensures log == [] && !closed
    {
      log := [];
      reportData := None;
      closed := false;
      success := false;
      status := "";
    }

    /** `result.log(msg)` */
    method Log(entry: LogEntry)
      modifies this`log
      ensures log == old(log) + [entry]
    {
      log := log + [entry];
    }

    /** `result.close(task, success, status)`: allowed once, and final. */
    method Close(success: bool, status: string)
      requires !closed
      modifies this`closed, this`success, this`status
      ensures closed && this.success == success && this.status == status
    {
      closed := true;
      this.success := success;
      this.status := status;
    }
  }

  /** A call the task makes on the filesystem. */
  datatype Access = StatCall(path: string) | ReadCall(path: string, limit: nat)

  /**
   * `str(e)` of the `OSError` that `os.stat` (or `open`) raises for a path
   * that does not exist, for paths whose `repr` is the path in single quotes.
   */
  function StatErrorText(path: string): string
  {
    "[Errno 2] No such file or directory: '" + path + "'"
  }

  /** The view the task gets of the file at `path`. */
  function FileAt(entries: map<string, seq<byte>>, path: string): OutputFile
  {
    if path in entries then Present(entries[path]) else Missing(StatErrorText(path))
  }

  /**
   * The `OSError` text that opening or reading the report raises, if any:
   * only a path that exists can have one (a directory, a file the task may
   * not read, a failing disk).
   */
  function OpenError(entries: map<string, seq<byte>>, readErrors: map<string, string>, path: string): Option<string>
  {
    if path in entries && path in readErrors then Some(readErrors[path]) else None
  }

  /**
   * The filesystem after the process has run: its files, the errors that
   * opening or reading some of them raises, and the record of the stat and
   * read calls made on it.
   */
  class FileSystem {
    const entries: map<string, seq<byte>>
    const readErrors: map<string, string>
    var accesses: seq<Access>

    constructor (entries: map<string, seq<byte>>, readErrors: map<string, string>)
      ensures this.entries == entries && this.readErrors == readErrors && accesses == []
    {
      this.entries := entries;
      this.readErrors := readErrors;
      accesses := [];
    }

    /** `os.stat(path).st_size`, or the error it raises. */
    method Stat(path: string) returns (r: Result<nat, string>)
      modifies this`accesses
      ensures accesses == old(accesses) + [StatCall(path)]
      ensures r == if path in entries then Ok(|entries[path]|) else Err(StatErrorText(path))
    {
      accesses := accesses + [StatCall(path)];
      if path in entries {
        r := Ok(|entries[path]|);
      } else {
        r := Err(StatErrorText(path));
      }
    }

    /** `open(path, 'rb').read(limit)`, or the error it raises. */
    method Read(path: string, limit: nat) returns (r: Result<seq<byte>, string>)
      modifies this`accesses
      ensures accesses == old(accesses) + [ReadCall(path, limit)]
      ensures path !in entries ==> r == Err(StatErrorText(path))
      ensures path in entries && path in readErrors ==> r == Err(readErrors[path])
      ensures path in entries && path !in readErrors ==> r == Ok(ReadPrefix(entries[path], limit))
    {
      accesses := accesses + [ReadCall(path, limit)];
      if path !in entries {
        r := Err(StatErrorText(path));
      } else if path in readErrors {
        r := Err(readErrors[path]);
      } else {
        r := Ok(ReadPrefix(entries[path], limit));
      }
    }
  }

  /**
   * The process supervisor of the task framework: runs an argument vector
   * with a deterministic tool and returns its exit code, keeping track of the
   * evidence it was told the run produces.
   */
  class Supervisor {
    const tool: seq<string> -> int
    var executed: seq<seq<string>>
    var tracked: seq<VolatilityReport>

    constructor (tool: seq<string> -> int)
      ensures this.tool == tool && executed == [] && tracked == []
    {
      this.tool := tool;
      executed := [];
      tracked := [];
    }

    /** `self.execute(cmd, result, new_evidence=..., close=True)` */
    method Execute(cmd: seq<string>, result: TaskResult, newEvidence: seq<VolatilityReport>)
      returns (exitCode: int)
      modifies this`executed, this`tracked
      ensures exitCode == tool(cmd)
      ensures executed == old(executed) + [cmd] && tracked == old(tracked) + newEvidence
    {
      executed := executed + [cmd];
      tracked := tracked + newEvidence;
      exitCode := tool(cmd);
    }
  }

  /** The entries `run` logs about the report file once the process exited with 0. */
  function ReportLog(path: string, file: OutputFile): seq<LogEntry>
  {
    match file
    case Missing(e) => [StatFailed(path, e)]
    case Present(contents) =>
      if |contents| > MAX_REPORT_SIZE then [Truncated(|contents|, MAX_REPORT_SIZE)] else []
  }

  /** The entries `run` adds to the result's log: the command line first. */
  function RunLog(cmd: seq<string>, path: string, exitCode: int, file: OutputFile): seq<LogEntry>
  {
    [Running(JoinWithSpaces(cmd))] + if exitCode != 0 then [] else ReportLog(path, file)
  }

  /** The filesystem calls `run` makes. */
  function RunAccesses(path: string, exitCode: int, file: OutputFile): seq<Access>
  {
    if exitCode != 0 then []
    else if file.Missing? then [StatCall(path)]
    else [StatCall(path), ReadCall(path, MAX_REPORT_SIZE)]
  }

  /** `VolatilityTask`: a task running one Volatility module. */
  class VolatilityTask {
    const moduleName: string
    const id: string
    const outputDir: string

    /** `__init__`; the id and the output directory come from the task framework. */
    constructor (moduleName: string, id: string, outputDir: string)
      ensures this.moduleName == moduleName && this.id == id && this.outputDir == outputDir
    {
      this.moduleName := moduleName;
      this.id := id;
      this.outputDir := outputDir;
    }

    /** `__init__` without a module argument: the module defaults to `test`. */
    constructor WithDefaultModule(id: string, outputDir: string)
      ensures moduleName == "test" && this.id == id && this.outputDir == outputDir
    {
      moduleName := "test";
      this.id := id;
      this.outputDir := outputDir;
    }

    /** The argument vector `run` executes on `evidence`. */
    function Argv(evidence: Evidence): seq<string>
    {
      BuildArgv(evidence.localPath, evidence.profile, moduleName, OutputPath(outputDir, id))
    }

    /** The report the task writes and reads back. */
    function ReportPath(): string
    {
      OutputPath(outputDir, id)
    }

    /**
     * The error that escapes `run` on `evidence`, if any: opening or reading
     * the report after an exit code of 0 raises.
     */
    function RunRaises(evidence: Evidence, tool: seq<string> -> int, entries: map<string, seq<byte>>,
                       readErrors: map<string, string>): Option<string>
    {
      if tool(Argv(evidence)) == 0 then OpenError(entries, readErrors, ReportPath()) else None
    }

    /** The outcome of a run on `evidence` with the tool `tool` and the files `entries`. */
    function RunOutcome(evidence: Evidence, tool: seq<string> -> int, entries: map<string, seq<byte>>): Outcome
    {
      Classify(tool(Argv(evidence)), FileAt(entries, ReportPath()))
    }

    /**
     * The `with open(...)` block of `run` and the close after it (the exit-0
     * path once the report file has been found): read at most MAX_REPORT_SIZE
     * bytes, decode them, attach the text to the evidence and the result, and
     * close the result with `summary` unless decoding fails. An error from
     * `open` or `read` is returned as `raised`, with the result still open.
     */
    method ReadReportAndClose(result: TaskResult, report: VolatilityReport, fs: FileSystem, summary: string)
      returns (raised: Option<string>)
      requires !result.closed && report.sourcePath in fs.entries
      requires summary == if |fs.entries[report.sourcePath]| > MAX_REPORT_SIZE
        then RanTruncated(moduleName) else SuccessfullyRan(moduleName)
      modifies result`reportData, result`closed, result`success, result`status, report`textData, fs`accesses
      ensures raised == OpenError(fs.entries, fs.readErrors, report.sourcePath)
      ensures fs.accesses == old(fs.accesses) + [ReadCall(report.sourcePath, MAX_REPORT_SIZE)]
      ensures raised.Some? ==>
        !result.closed && result.success == old(result.success) && result.status == old(result.status) &&
        result.reportData == old(result.reportData) && report.textData == old(report.textData)
      ensures raised.None? ==> result.closed
      ensures raised.None? ==> result.success == Succeeded(Classify(0, Present(fs.entries[report.sourcePath])))
      ensures raised.None? ==> result.status == Summary(moduleName, Classify(0, Present(fs.entries[report.sourcePath])))
      ensures raised.None? ==> result.reportData == report.textData
      ensures raised.None? && Succeeded(Classify(0, Present(fs.entries[report.sourcePath]))) ==>
        report.textData == ReportText(Classify(0, Present(fs.entries[report.sourcePath])))
    {
      var read := fs.Read(report.sourcePath, MAX_REPORT_SIZE);
      if read.Err? {
        raised := Some(read.error);
        return;
      }
      raised := None;
      ghost var o := Classify(0, Present(fs.entries[report.sourcePath]));
      var success := true;
      var status := summary;
      var decoded := Decode(read.value);
      if decoded.Ok? {
        report.textData := Some(decoded.value);
        assert o == if |fs.entries[report.sourcePath]| > MAX_REPORT_SIZE
          then SuccessTruncated(decoded.value) else Success(decoded.value);
      } else {
        success := false;
        status := CouldNotBeRead(decoded.error);
        assert o == DecodeError(decoded.error);
      }
      result.reportData := report.textData;
      result.Close(success, status);
    }

    /**
     * The exit-0 path of `run`: stat the report file; when there is none, log
     * the error and close the result as a failure; otherwise log a truncation,
     * choose the summary and go on to read the report.
     */
    method FinishSuccessfulProcess(result: TaskResult, report: VolatilityReport, fs: FileSystem)
      returns (raised: Option<string>)
      requires !result.closed
      modifies result`log, result`reportData, result`closed, result`success, result`status
      modifies report`textData, fs`accesses
      ensures raised == OpenError(fs.entries, fs.readErrors, report.sourcePath)
      ensures raised.Some? ==>
        !result.closed && result.success == old(result.success) && result.status == old(result.status) &&
        result.reportData == old(result.reportData) && report.textData == old(report.textData)
      ensures raised.None? ==> result.closed
      ensures raised.None? ==> result.success == Succeeded(Classify(0, FileAt(fs.entries, report.sourcePath)))
      ensures raised.None? ==> result.status == Summary(moduleName, Classify(0, FileAt(fs.entries, report.sourcePath)))
      ensures result.log == old(result.log) + ReportLog(report.sourcePath, FileAt(fs.entries, report.sourcePath))
      ensures fs.accesses == old(fs.accesses) + RunAccesses(report.sourcePath, 0, FileAt(fs.entries, report.sourcePath))
      ensures report.sourcePath !in fs.entries ==>
        result.reportData == old(result.reportData) && report.textData == old(report.textData)
      ensures raised.None? && report.sourcePath in fs.entries ==> result.reportData == report.textData
      ensures raised.None? && Succeeded(Classify(0, FileAt(fs.entries, report.sourcePath))) ==>
        report.textData == ReportText(Classify(0, FileAt(fs.entries, report.sourcePath)))
    {
      var outputFilePath := report.sourcePath;
      var stat := fs.Stat(outputFilePath);
      if stat.Err? {
        var summary := NO_OUTPUT_FILE;
        result.Log(StatFailed(outputFilePath, stat.error));
        result.Close(false, summary);
        return None;
      }
      var fileSize := stat.value;
      var summary: string;
      if fileSize > MAX_REPORT_SIZE {
        result.Log(Truncated(fileSize, MAX_REPORT_SIZE));
        summary := RanTruncated(moduleName);
      } else {
        summary := SuccessfullyRan(moduleName);
      }
      raised := ReadReportAndClose(result, report, fs, summary);
    }

    /**
     * `run(evidence, result)`: run the module, read the report and close the
     * result once with the outcome `Classify` gives for the exit code and the
     * file at the output path. The source returns the `result` it was given;
     * here the result is updated in place and `Run` returns the output
     * evidence it registered instead. An `OSError` from opening or reading
     * the report escapes `run` with the result still open; it is returned as
     * `raised`.
     */
    method Run(evidence: Evidence, result: TaskResult, supervisor: Supervisor, fs: FileSystem)
      returns (report: VolatilityReport, raised: Option<string>)
      requires !result.closed
      modifies result`log, result`reportData, result`closed, result`success, result`status
      modifies supervisor`executed, supervisor`tracked, fs`accesses
      ensures fresh(report) && report.sourcePath == ReportPath()
      ensures supervisor.executed == old(supervisor.executed) + [Argv(evidence)]
      ensures supervisor.tracked == old(supervisor.tracked) + [report]
      ensures raised == RunRaises(evidence, supervisor.tool, fs.entries, fs.readErrors)
      ensures result.closed <==> raised.None?
      ensures raised.Some? ==>
        result.success == old(result.success) && result.status == old(result.status) &&
        result.reportData == old(result.reportData)
      ensures raised.None? ==> result.success == Succeeded(RunOutcome(evidence, supervisor.tool, fs.entries))
      ensures raised.None? ==> result.status == Summary(moduleName, RunOutcome(evidence, supervisor.tool, fs.entries))
      ensures result.log == old(result.log) +
        RunLog(Argv(evidence), ReportPath(), supervisor.tool(Argv(evidence)), FileAt(fs.entries, ReportPath()))
      ensures fs.accesses == old(fs.accesses) +
        RunAccesses(ReportPath(), supervisor.tool(Argv(evidence)), FileAt(fs.entries, ReportPath()))
      ensures raised.None? && ReportText(RunOutcome(evidence, supervisor.tool, fs.entries)).Some? ==>
        report.textData == ReportText(RunOutcome(evidence, supervisor.tool, fs.entries)) &&
        result.reportData == report.textData
      ensures raised.None? && RunOutcome(evidence, supervisor.tool, fs.entries).DecodeError? ==>
        result.reportData == report.textData
      ensures RunOutcome(evidence, supervisor.tool, fs.entries).Failed? ==>
        result.reportData == old(result.reportData)
      ensures RunOutcome(evidence, supervisor.tool, fs.entries).NoOutputFile? ==>
        result.reportData == old(result.reportData)
    {
      var outputFilePath := OutputPath(outputDir, id);
      report := new VolatilityReport(outputFilePath);
      var cmd := BuildArgv(evidence.localPath, evidence.profile, moduleName, outputFilePath);
      result.Log(Running(JoinWithSpaces(cmd)));
      var res := supervisor.Execute(cmd, result, [report]);
      if res == 0 {
        raised := FinishSuccessfulProcess(result, report, fs);
      } else {
        var summary := FailedToRun(moduleName);
        result.Close(false, summary);
        raised := None;
      }
    }
  }
}
