# Volatility task of Turbinia, modelled in Dafny

Turbinia is a distributed forensic-processing pipeline. `VolatilityTask` is
one unit of work in it: it runs the Volatility memory-forensics tool
(`vol.py`) with one analysis module against a piece of evidence. It then reads
the text report the tool wrote back into a new `VolatilityReport` evidence
object and closes the task result with a success flag and a status summary.

The model covers the whole of `VolatilityTask.run` and the constant
`MAX_REPORT_SIZE`:

- **Command builder** (`command.dfy`, with `text.dfy`). The output path
  `<output_dir>/<task id>.txt` is built with `os.path.join`. The `vol.py`
  command line is formatted and then split with Python's `str.split()`.
  `Text.Split` models that split, using Python 3's whitespace set.
- **UTF-8** (`utf8.dfy`). This module states the byte grammar of section 4 of
  RFC 3629 ("Syntax of UTF-8 Byte Sequences"). It also has a decoder that
  behaves like the strict `bytes.decode('utf-8')`. The decoder reports the
  first ill-formed part the way CPython's `UnicodeDecodeError` does: the
  position, the byte or byte range, and one of three reasons. The module also
  has the encoder that the decoder inverts.
- **Output finalizer** (`finalizer.dfy`). `Classify` is a pure function. It
  takes the exit code and what `os.stat` finds at the output path, and
  returns one of five outcomes: `Failed`, `NoOutputFile`, `Success`,
  `SuccessTruncated` or `DecodeError`. From the outcome come the success flag
  (`Succeeded`), the status summary (`Summary`) and the report text
  (`ReportText`).
- **The run** (`task.dfy`). `run` is imperative Dafny. The task result is a
  class whose `Close` may be called only while the result is still open. The
  output evidence is a class with a mutable `textData`. The process
  supervisor and the filesystem are classes too. Each of them records the
  calls made on it, so the contracts can say which files were stat'ed or
  read and which command was executed. `Run` follows the source's control
  flow. It is split into three methods along the source's blocks: lines
  64-66 and 101-103, lines 67-90, and lines 91-100. Its contract ties the
  final state of every object to `Classify`. An `OSError` from opening or
  reading the report is not caught by `run`; the model returns it and
  states that the result then stays open.

The code's own spelling is kept: the
truncated summary reads `Volatility module <m> successfuly ran (report
truncated)` (one "l"), as on line 86. The code does not trim a multi-byte
character cut at the size limit, so such a report is a decode failure
(`Finalizer.CutCharacterFailsDecode`).

## Model

| member | source | states |
|---|---|---|
| `Task.VolatilityTask.constructor` | turbinia/workers/volatility.py:35-37 | the task stores the module it runs (and the id and output directory the framework gives it) |
| `Task.VolatilityTask.WithDefaultModule` | turbinia/workers/volatility.py:35 | without a module argument the task runs the module `test` |
| `Task.VolatilityTask.Run` | turbinia/workers/volatility.py:39-105 | the result is closed on every path except one: an error from opening or reading the report (after exit 0 and a successful stat) escapes with the result open and its flag, status and `report_data` unchanged; the success flag and status are those of `Classify` on the exit code and the file at `<output_dir>/<id>.txt`; the exact argv is executed and the new evidence is registered with it; the log gets the joined command line, then the stat error or the truncation sizes; the file is not touched on a non-zero exit, only stat'ed when missing, otherwise stat'ed and read once with limit `MAX_REPORT_SIZE`; when the result is closed, on success the evidence text and `report_data` both equal the decoded prefix; `report_data` is untouched on the two paths that close before reading |
| `Task.VolatilityTask.FinishSuccessfulProcess` | turbinia/workers/volatility.py:67-90 | after exit 0: a failing stat logs the error and closes as "no output file"; otherwise a size above the limit is logged with both sizes and the truncated summary is chosen, and the result is closed as `Classify` says, unless opening or reading the report raises |
| `Task.VolatilityTask.ReadReportAndClose` | turbinia/workers/volatility.py:91-100 | reads the file once with limit `MAX_REPORT_SIZE`; an `OSError` from `open` or `read` is passed on with the result left open and unchanged; otherwise a decode error turns the flag false and the status into "could not be read"; otherwise the evidence text is the decoded prefix; `report_data` is set from the evidence text; the result is closed |
| `Task.TaskResult.Close` | turbinia/workers/volatility.py:77 | closing needs an open result and records the final success flag and status; so `run` can close it at most once |
| `Task.TaskResult.Log` | turbinia/workers/volatility.py:64 | a log call appends exactly one entry |
| `Task.VolatilityReport.constructor` | turbinia/workers/volatility.py:55 | the output evidence is created with the report path as its source path |
| `Task.FileSystem.Stat` | turbinia/workers/volatility.py:71-72 | `os.stat` gives the size of an existing file and raises the missing-file error otherwise; the call is recorded |
| `Task.FileSystem.Read` | turbinia/workers/volatility.py:91-92 | `open(path, 'rb').read(limit)` returns the first `min(size, limit)` bytes, raises the missing-file error for a path that does not exist, and raises the file's own `OSError` for a path that cannot be opened or read; the call is recorded |
| `Task.Supervisor.Execute` | turbinia/workers/volatility.py:65 | the argv is executed once and the exit code is the tool's; the new evidence is registered before the run |
| `Command.JoinPath` | turbinia/workers/volatility.py:52-53 | no contract of its own: `os.path.join` of two components on POSIX, by construction; an absolute second part replaces the first, and a `/` is put between them only when the first is non-empty and does not already end in one |
| `Command.OutputPath` | turbinia/workers/volatility.py:52-53 | no contract of its own: the output directory joined with `<id>.txt`; what that gives is stated by the next two lemmas |
| `Command.OutputPathIsReportFile` | turbinia/workers/volatility.py:52-53 | for an id without `/`, the output path is `DirectoryPrefix(<output_dir>)` followed by `<id>.txt`, where the prefix is the directory with a `/` added unless it is empty or already ends in `/`; the base name of the path is `<id>.txt` |
| `Command.OutputPathsDistinct` | turbinia/workers/volatility.py:52-53 | two tasks with different ids never share an output file in one directory |
| `Command.BuildArgv` | turbinia/workers/volatility.py:58-62 | no contract of its own: `str.split()` of the formatted command string; its words are stated by the three `Argv…` lemmas below |
| `Command.ArgvIsWordsOfEachPart` | turbinia/workers/volatility.py:58-62 | for any inputs, the argv is `vol.py`, `-f`, the words of the evidence path, the words of `--profile=<profile>`, the words of the module, `--output=text`, then the words of `--output-file=<out>` |
| `Command.ArgvOfSpacedPath` | turbinia/workers/volatility.py:58-62 | an evidence path with one space in it reaches `vol.py` as two separate arguments, so the argv has eight words |
| `Command.ArgvOfPlainArguments` | turbinia/workers/volatility.py:58-62 | when the evidence path and module are non-empty and nothing holds whitespace, the argv is exactly the seven words `vol.py -f <path> --profile=<profile> <module> --output=text --output-file=<out>` |
| `Text.Split` | turbinia/workers/volatility.py:62 | no contract of its own: `str.split()` with no argument, by recursion over the text; its meaning is stated by `SplitWordsAreTokens` and `SplitAtSpace` |
| `Text.JoinWithSpaces` | turbinia/workers/volatility.py:64 | no contract of its own: `' '.join(...)`, by construction; `SplitJoin` and `SplitOfJoin` relate it to `Split` |
| `Text.SplitWordsAreTokens` | turbinia/workers/volatility.py:62 | every word of `str.split()` is non-empty and whitespace-free |
| `Text.SplitAtSpace` | turbinia/workers/volatility.py:62 | a whitespace character splits the text into two parts that split independently; with the lemma above, the words are exactly the maximal whitespace-free runs, in order |
| `Text.SplitOfJoin` | turbinia/workers/volatility.py:58-62 | splitting a space-joined list of strings gives the words of each string in turn |
| `Text.SplitJoin` | turbinia/workers/volatility.py:58-62 | splitting the space-joined form of whitespace-free words gives the words back |
| `Text.SplitOfJoinedSplit` | turbinia/workers/volatility.py:62-64 | the logged command line splits back into exactly the argv that is executed |
| `Text.Decimal` | turbinia/workers/volatility.py:82-84 | `{0:d}` of a size is a non-empty string of decimal digits |
| `Text.DecimalValue` | turbinia/workers/volatility.py:82-84 | the digits of `{0:d}` denote exactly the number, with no leading zero |
| `Finalizer.Classify` | turbinia/workers/volatility.py:67-103 | no contract of its own: the decision of lines 67-103, from the exit code and what `os.stat` finds, into one of five outcomes; it is characterised by the lemmas from `NonZeroExitFails` to `CutCharacterFailsDecode` below |
| `Finalizer.Summary` | turbinia/workers/volatility.py:75-102 | no contract of its own: the status strings of lines 75, 86-89, 97 and 102, by construction; `SummaryTellsOutcomesApart` shows that outcomes of different kinds get different strings |
| `Finalizer.ReadPrefix` | turbinia/workers/volatility.py:91-92 | the bytes read are a prefix of the file, no longer than the limit, and the whole file when it is shorter than the limit |
| `Finalizer.NonZeroExitFails` | turbinia/workers/volatility.py:101-103 | a non-zero exit code fails with "Volatility module <m> failed to run" and no report, whatever the file |
| `Finalizer.MissingFileFails` | turbinia/workers/volatility.py:70-78 | exit 0 with a failing stat fails with "Volatility ran successfully, but no output file was created", keeping the stat error |
| `Finalizer.SucceedsIffReportIsUtf8` | turbinia/workers/volatility.py:67-100 | the run succeeds if and only if the exit code is 0, the file exists and the bytes read are well-formed UTF-8 |
| `Finalizer.ReportIsFilePrefix` | turbinia/workers/volatility.py:91-94 | the report text encodes to exactly the first `min(size, 2^30)` bytes of the file, so it never exceeds `MAX_REPORT_SIZE` bytes |
| `Finalizer.TruncatedIffOverLimit` | turbinia/workers/volatility.py:80-89 | the truncated outcome arises exactly when the size is strictly greater than `MAX_REPORT_SIZE` and the first `MAX_REPORT_SIZE` bytes decode; the plain success exactly when the size is at most the limit and the whole file decodes |
| `Finalizer.ReportAtLimitIsNotTruncated` | turbinia/workers/volatility.py:80-89 | a well-formed file of exactly `MAX_REPORT_SIZE` bytes gets the plain "successfully ran" summary and is read whole |
| `Finalizer.DecodeFailureOverrides` | turbinia/workers/volatility.py:93-97 | bytes that are not well-formed UTF-8 fail the run with "Volatility report could not be read: " and the decode error, whether or not the file was truncated; the error's range lies in the bytes read and everything before it is well-formed |
| `Finalizer.EmptyReportSucceeds` | turbinia/workers/volatility.py:89-94 | a zero-byte file is a success with an empty report and the plain summary |
| `Finalizer.CutCharacterFailsDecode` | turbinia/workers/volatility.py:91-97 | a well-formed file cut by the size limit inside a multi-byte character is a decode failure |
| `Finalizer.SummaryTellsOutcomesApart` | turbinia/workers/volatility.py:75-102 | outcomes of different kinds never share a status summary |
| `Utf8.Decode` | turbinia/workers/volatility.py:94 | a decoded text has at most as many characters as bytes; a failure names a non-empty byte range inside the input and its first byte |
| `Utf8.FirstStepMatchesGrammar` | turbinia/workers/volatility.py:94 | the decoder takes a character of `n` bytes exactly when those bytes form one UTF8-char of RFC 3629 |
| `Utf8.DecodeSucceedsIffWellFormed` | turbinia/workers/volatility.py:94-95 | `decode('utf-8')` succeeds if and only if the bytes are well-formed UTF-8 per section 4 of RFC 3629 (no overlong forms, no surrogates, nothing above U+10FFFF) |
| `Utf8.FailurePrefixWellFormed` | turbinia/workers/volatility.py:95-97 | the bytes before the reported error position are well-formed |
| `Utf8.FailureAtFirstBadPosition` | turbinia/workers/volatility.py:94-97 | no UTF8-char of any length starts at the reported error position; with `FailurePrefixWellFormed`, the position is the first ill-formed one |
| `Utf8.CutInsideCharacter` | turbinia/workers/volatility.py:92-94 | a prefix of well-formed UTF-8 that ends inside a multi-byte character does not decode |
| `Utf8.DecodeEncode` | turbinia/workers/volatility.py:94 | decoding the UTF-8 encoding of any text gives that text back |
| `Utf8.EncodeDecode` | turbinia/workers/volatility.py:94 | re-encoding a decoded text gives back exactly the bytes it was decoded from |
| `Utf8.Describe` | turbinia/workers/volatility.py:97 | no contract and no partner lemma: `str()` of CPython's `UnicodeDecodeError`, by construction; one byte is named by its hex value and position, a longer part by its position range, followed by the reason |
| `Task.Message` | turbinia/workers/volatility.py:64-84 | no contract of its own: the wording of the three log messages, by construction, with sizes in decimal |

## Left out

- `config.LoadConfig()` (line 49) loads configuration and decides nothing here; it is not modelled.
- `self.execute` (line 65) belongs to the task framework, which is not part of this model. `Supervisor` runs a deterministic function from argv to exit code, and records the argv and the evidence it is given. Log streaming and spawn failures are not modelled.
- `Task.Supervisor.Execute`: does not model whether `close=True` makes the framework close the result itself on a non-zero exit, because that code is not part of this model. `Run` assumes the result is still open after `execute`.
- `Task.FileSystem.Stat`: only the missing-file error (`ENOENT`) is modelled, with CPython's message for paths whose `repr` is the path in single quotes (no quote or backslash in it). Other `OSError`s of `os.stat` (permissions, I/O) take the same path in `run` but with other error text.
- `Task.FileSystem.Read`: the `OSError` that `open` or `read` raises (a directory, a file the task may not read, an I/O error) is given per path as an input, and the model does not tell an error of `open` from one of `read`. Such an error is not caught in `run`, so it leaves `run` with the result still open. What the task framework does with it is not part of this model.
- The filesystem does not change between the `os.stat` and the `open` (lines 71 and 91). A file removed in between would make `open` raise, and `run` would not close the result; that race is not modelled.
- `Task.VolatilityTask.Run` returns the output evidence it registered (and any escaping error) rather than `result` (line 105): the result object is updated in place, and the caller already holds it.
- `os.path.join` is modelled for two components on POSIX only.
- `Task.VolatilityTask.Run`: after a decode failure, `report_data` is the evidence's initial `text_data` (line 99), whose default belongs to the `VolatilityReport` class. The contract only says that `report_data` equals the evidence's `text_data`.
- Log messages are stored as `LogEntry` values that carry the facts: the joined command line, the path and stat error, and both sizes. `Task.Message` renders their wording, which the contracts do not state.
- The rest of `TurbiniaTaskResult` (the evidence list it attaches on close, timing, and persistence) and the rest of the `VolatilityReport` evidence are not modelled.
- The Python 2/3 differences in `str.split()` and in the decode error text are not modelled. The codecs also differ in what they accept: Python 2.7's UTF-8 decoder takes encoded surrogates such as `ED A0 80`, so a report holding one decodes there but fails here. The model follows Python 3 throughout.
