/**
 * The output finalizer of `VolatilityTask.run`: from the exit code of the
 * run and the report file it left, the outcome of the task, its success flag,
 * its status summary and the report text.
 */
module Finalizer {
  import opened Wrappers
  import opened Utf8

  /** `MAX_REPORT_SIZE`: at most 2^30 bytes (1 GiB) of the report are read. */
  const MAX_REPORT_SIZE: nat := 0x4000_0000

  /** What `os.stat` finds at the output path: the error it raises, or a file of these bytes. */
  datatype OutputFile = Missing(statError: string) | Present(contents: seq<byte>)

  /** The five ways a run can end. */
  datatype Outcome =
    | Failed
    | NoOutputFile(statError: string)
    | Success(text: string)
    | SuccessTruncated(text: string)
    | DecodeError(failure: DecodeFailure)

  /** `fh.read(limit)` on a file holding `contents`. */
  function ReadPrefix(contents: seq<byte>, limit: nat): (r: seq<byte>)
    ensures |r| <= limit && r <= contents
    ensures |r| < limit ==> r == contents
  {
    if |contents| <= limit then contents else contents[..limit]
  }

  /** The decision of `run` once the process has exited with `exitCode`. */
  function Classify(exitCode: int, file: OutputFile): Outcome
  {
    if exitCode != 0 then Failed
    else
      match file
      case Missing(e) => NoOutputFile(e)
      case Present(contents) =>
        match Decode(ReadPrefix(contents, MAX_REPORT_SIZE))
        case Err(f) => DecodeError(f)
        case Ok(text) =>
          if |contents| > MAX_REPORT_SIZE then SuccessTruncated(text) else Success(text)
  }

  /** The `success` flag passed to `result.close`. */
  predicate Succeeded(o: Outcome)
  {
    o.Success? || o.SuccessTruncated?
  }

  /** The decoded report attached to the output evidence and the result, when there is one. */
  function ReportText(o: Outcome): Option<string>
  {
    if o.Success? || o.SuccessTruncated? then Some(o.text) else None
  }

  function FailedToRun(moduleName: string): string
  {
    "Volatility module " + moduleName + " failed to run"
  }

  const NO_OUTPUT_FILE: string := "Volatility ran successfully, " + "but no output file was created"

  function SuccessfullyRan(moduleName: string): string
  {
    "Volatility module " + moduleName + " successfully ran"
  }

  /** The source spells this summary "successfuly". */
  function RanTruncated(moduleName: string): string
  {
    "Volatility module " + moduleName + " successfuly ran (report truncated)"
  }

  const COULD_NOT_BE_READ: string := "Volatility report could not be read: "

  function CouldNotBeRead(f: DecodeFailure): string
  {
    COULD_NOT_BE_READ + Describe(f)
  }

  /** The `status` passed to `result.close`. */
  function Summary(moduleName: string, o: Outcome): string
  {
    match o
    case Failed => FailedToRun(moduleName)
    case NoOutputFile(_) => NO_OUTPUT_FILE
    case Success(_) => SuccessfullyRan(moduleName)
    case SuccessTruncated(_) => RanTruncated(moduleName)
    case DecodeError(f) => CouldNotBeRead(f)
  }

  // ---------------------------------------------------------------------------
  // Properties of the classification
  // ---------------------------------------------------------------------------

  /** A non-zero exit code fails the run whatever file there is; the file plays no part. */
  lemma NonZeroExitFails(moduleName: string, exitCode: int, file: OutputFile)
    requires exitCode != 0
    ensures Classify(exitCode, file) == Failed
    ensures !Succeeded(Classify(exitCode, file)) && ReportText(Classify(exitCode, file)) == None
    ensures Summary(moduleName, Classify(exitCode, file)) == FailedToRun(moduleName)
  {
  }

  /** Exit code 0 without an output file fails with its own summary, keeping the stat error. */
  lemma MissingFileFails(moduleName: string, statError: string)
    ensures Classify(0, Missing(statError)) == NoOutputFile(statError)
    ensures !Succeeded(Classify(0, Missing(statError)))
    ensures ReportText(Classify(0, Missing(statError))) == None
    ensures Summary(moduleName, Classify(0, Missing(statError))) == NO_OUTPUT_FILE
  {
  }

  /** A run succeeds exactly when the process exited with 0 and the bytes read are well-formed UTF-8. */
  lemma SucceedsIffReportIsUtf8(exitCode: int, file: OutputFile)
    ensures Succeeded(Classify(exitCode, file)) <==>
      exitCode == 0 && file.Present? && WellFormed(ReadPrefix(file.contents, MAX_REPORT_SIZE))
  {
    if file.Present? {
      DecodeSucceedsIffWellFormed(ReadPrefix(file.contents, MAX_REPORT_SIZE));
    }
  }

  /**
   * The report text is exactly the first min(size, MAX_REPORT_SIZE) bytes of
   * the file, decoded: its UTF-8 encoding is those bytes, so it never exceeds
   * MAX_REPORT_SIZE bytes.
   */
  lemma ReportIsFilePrefix(exitCode: int, file: OutputFile)
    requires ReportText(Classify(exitCode, file)).Some?
    ensures file.Present?
    ensures var bytes := Encode(ReportText(Classify(exitCode, file)).value);
      |bytes| == (if |file.contents| <= MAX_REPORT_SIZE then |file.contents| else MAX_REPORT_SIZE) &&
      bytes == file.contents[..|bytes|]
  {
    EncodeDecode(ReadPrefix(file.contents, MAX_REPORT_SIZE));
  }

  /**
   * Truncation is strict: only a file larger than MAX_REPORT_SIZE gives the
   * truncated outcome, and a file at most that large is read whole.
   */
  lemma TruncatedIffOverLimit(contents: seq<byte>)
    ensures Classify(0, Present(contents)).SuccessTruncated? <==>
      |contents| > MAX_REPORT_SIZE && WellFormed(contents[..MAX_REPORT_SIZE])
    ensures Classify(0, Present(contents)).Success? <==>
      |contents| <= MAX_REPORT_SIZE && WellFormed(contents)
  {
    DecodeSucceedsIffWellFormed(ReadPrefix(contents, MAX_REPORT_SIZE));
  }

  /** A well-formed file of exactly MAX_REPORT_SIZE bytes is the plain success, read in full. */
  lemma ReportAtLimitIsNotTruncated(moduleName: string, contents: seq<byte>)
    requires |contents| == MAX_REPORT_SIZE && WellFormed(contents)
    ensures Classify(0, Present(contents)).Success?
    ensures Encode(Classify(0, Present(contents)).text) == contents
    ensures Summary(moduleName, Classify(0, Present(contents))) == SuccessfullyRan(moduleName)
  {
    DecodeSucceedsIffWellFormed(contents);
    EncodeDecode(contents);
  }

  /**
   * Bytes that are not well-formed UTF-8 fail the run, whatever the size:
   * the summary names the first ill-formed part, and everything before it is
   * well-formed.
   */
  lemma DecodeFailureOverrides(moduleName: string, contents: seq<byte>)
    requires !WellFormed(ReadPrefix(contents, MAX_REPORT_SIZE))
    ensures Classify(0, Present(contents)).DecodeError?
    ensures !Succeeded(Classify(0, Present(contents)))
    ensures var f := Classify(0, Present(contents)).failure;
      var read := ReadPrefix(contents, MAX_REPORT_SIZE);
      Summary(moduleName, Classify(0, Present(contents))) == COULD_NOT_BE_READ + Describe(f) &&
      f.start < f.end <= |read| && WellFormed(read[..f.start])
  {
    var read := ReadPrefix(contents, MAX_REPORT_SIZE);
    DecodeSucceedsIffWellFormed(read);
    FailurePrefixWellFormed(read);
  }

  /** An empty output file is a success with an empty report. */
  lemma EmptyReportSucceeds(moduleName: string)
    ensures Classify(0, Present([])) == Success([])
    ensures Summary(moduleName, Classify(0, Present([]))) == SuccessfullyRan(moduleName)
  {
  }

  /**
   * A well-formed report cut by the size limit inside a multi-byte character
   * fails to decode: the partial character is not trimmed.
   */
  lemma CutCharacterFailsDecode(contents: seq<byte>)
    requires WellFormed(contents) && |contents| > MAX_REPORT_SIZE && IsTail(contents[MAX_REPORT_SIZE])
    ensures Classify(0, Present(contents)).DecodeError?
  {
    CutInsideCharacter(contents, MAX_REPORT_SIZE);
  }

  /** Whether two outcomes end the run the same way. */
  predicate SameKind(o1: Outcome, o2: Outcome)
  {
    (o1.Failed? && o2.Failed?) || (o1.NoOutputFile? && o2.NoOutputFile?) ||
    (o1.Success? && o2.Success?) || (o1.SuccessTruncated? && o2.SuccessTruncated?) ||
    (o1.DecodeError? && o2.DecodeError?)
  }

  /** Letters 12 and 13 of each summary: "Volatility module", "Volatility ran", "Volatility report". */
  lemma SummaryLetters(moduleName: string, o: Outcome)
    ensures |Summary(moduleName, o)| > 12
    ensures Summary(moduleName, o)[11] == (if o.Failed? || o.Success? || o.SuccessTruncated? then 'm' else 'r')
    ensures o.NoOutputFile? ==> Summary(moduleName, o)[12] == 'a'
    ensures o.DecodeError? ==> Summary(moduleName, o)[12] == 'e'
  {
    var s := Summary(moduleName, o);
    if o.DecodeError? {
      assert s == COULD_NOT_BE_READ + Describe(o.failure);
      assert s[11] == COULD_NOT_BE_READ[11] && s[12] == COULD_NOT_BE_READ[12];
    } else if o.NoOutputFile? {
      assert s == NO_OUTPUT_FILE;
      assert NO_OUTPUT_FILE[11] == 'r' && NO_OUTPUT_FILE[12] == 'a';
    } else {
      var prefix := "Volatility module " + moduleName;
      assert s[11] == prefix[11] == 'm';
    }
  }

  /** The summary alone tells the five outcomes apart. */
  lemma SummaryTellsOutcomesApart(moduleName: string, o1: Outcome, o2: Outcome)
    requires !SameKind(o1, o2)
    ensures Summary(moduleName, o1) != Summary(moduleName, o2)
  {
    var s1, s2 := Summary(moduleName, o1), Summary(moduleName, o2);
    var m1 := o1.Failed? || o1.Success? || o1.SuccessTruncated?;
    var m2 := o2.Failed? || o2.Success? || o2.SuccessTruncated?;
    if m1 && m2 {
      assert |s1| != |s2|;
    } else {
      SummaryLetters(moduleName, o1);
      SummaryLetters(moduleName, o2);
    }
  }
}
