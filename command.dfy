/**
 * The command builder of `VolatilityTask.run`: where the report is written and
 * the argument vector handed to the process supervisor.
 */
module Command {
  import opened Text

  /** `os.path.join(a, b)` on POSIX for two components. */
  function JoinPath(a: string, b: string): string
  {
    if b != [] && b[0] == '/' then b
    else if a == [] || a[|a| - 1] == '/' then a + b
    else a + "/" + b
  }

  /** `os.path.basename(p)`: what follows the last `/`. */
  function BaseName(p: string): string
  {
    if p == [] || p[|p| - 1] == '/' then [] else BaseName(p[..|p| - 1]) + [p[|p| - 1]]
  }

  /** The name of the report file of task `id`: `'{0:s}.txt'.format(id)`. */
  function ReportFileName(id: string): string
  {
    id + ".txt"
  }

  /** `output_file_path`: the report file inside the task's output directory. */
  function OutputPath(outputDir: string, id: string): string
  {
    JoinPath(outputDir, ReportFileName(id))
  }

  /** The part of `OutputPath` that comes before the file name. */
  function DirectoryPrefix(outputDir: string): string
  {
    if outputDir == [] || outputDir[|outputDir| - 1] == '/' then outputDir else outputDir + "/"
  }

  /** The formatted command string, before it is split. */
  function CommandLine(localPath: string, profile: string, moduleName: string, outputPath: string): string
  {
    "vol.py -f " + localPath + (" --profile=" + profile + (" " + moduleName +
    (" --output=text --output-file=" + outputPath)))
  }

  /** `cmd`: the whitespace-split of the formatted command string. */
  function BuildArgv(localPath: string, profile: string, moduleName: string, outputPath: string): seq<string>
  {
    Split(CommandLine(localPath, profile, moduleName, outputPath))
  }

  lemma {:induction false} BaseNameAfterSlash(a: string, b: string)
    requires a == [] || a[|a| - 1] == '/'
    requires '/' !in b
    ensures BaseName(a + b) == b
    decreases |b|
  {
    if b == [] {
      assert a + b == a;
    } else {
      var p := a + b;
      assert p[..|p| - 1] == a + b[..|b| - 1];
      assert p[|p| - 1] == b[|b| - 1];
      BaseNameAfterSlash(a, b[..|b| - 1]);
      assert b == b[..|b| - 1] + [b[|b| - 1]];
    }
  }

  /**
   * The report of task `id` is the file `<id>.txt` directly inside the output
   * directory, for a task id without a `/`.
   */
  lemma OutputPathIsReportFile(outputDir: string, id: string)
    requires '/' !in id
    ensures OutputPath(outputDir, id) == DirectoryPrefix(outputDir) + ReportFileName(id)
    ensures BaseName(OutputPath(outputDir, id)) == ReportFileName(id)
  {
    var name := ReportFileName(id);
    assert name[0] != '/' by {
      if id != [] { assert name[0] == id[0]; } else { assert name == ".txt"; }
    }
    assert '/' !in name by {
      assert name == id + ".txt";
      forall i | 0 <= i < |name| ensures name[i] != '/' {
        if i < |id| { assert name[i] == id[i]; }
      }
    }
    var d := DirectoryPrefix(outputDir);
    assert d == [] || d[|d| - 1] == '/';
    assert outputDir != [] && outputDir[|outputDir| - 1] != '/' ==>
      outputDir + "/" + name == d + name;
    BaseNameAfterSlash(d, name);
  }

  /** Two tasks with different ids never share a report file in one output directory. */
  lemma OutputPathsDistinct(outputDir: string, id1: string, id2: string)
    requires '/' !in id1 && '/' !in id2 && id1 != id2
    ensures OutputPath(outputDir, id1) != OutputPath(outputDir, id2)
  {
    OutputPathIsReportFile(outputDir, id1);
    OutputPathIsReportFile(outputDir, id2);
    var d := DirectoryPrefix(outputDir);
    var n1, n2 := ReportFileName(id1), ReportFileName(id2);
    var p1, p2 := d + n1, d + n2;
    if |id1| == |id2| {
      var i :| 0 <= i < |id1| && id1[i] != id2[i];
      assert n1[i] == id1[i] && n2[i] == id2[i];
      assert p1[|d| + i] == n1[i] && p2[|d| + i] == n2[i];
    } else {
      assert |p1| != |p2|;
    }
  }

  /** The seven words of the command pattern. */
  function PatternWords(localPath: string, profile: string, moduleName: string, outputPath: string): seq<string>
  {
    ["vol.py", "-f", localPath, "--profile=" + profile, moduleName, "--output=text",
     "--output-file=" + outputPath]
  }

  lemma PatternWordsAreTokens(localPath: string, profile: string, moduleName: string, outputPath: string)
    requires IsToken(localPath) && IsToken(moduleName)
    requires NoSpace(profile) && NoSpace(outputPath)
    ensures forall i :: 0 <= i < 7 ==> IsToken(PatternWords(localPath, profile, moduleName, outputPath)[i])
  {
    assert IsToken("--profile=" + profile) by {
      var w := "--profile=" + profile;
      forall i | 0 <= i < |w| ensures !IsSpace(w[i]) {
        if i >= 10 { assert w[i] == profile[i - 10]; }
      }
    }
    assert IsToken("--output-file=" + outputPath) by {
      var w := "--output-file=" + outputPath;
      forall i | 0 <= i < |w| ensures !IsSpace(w[i]) {
        if i >= 14 { assert w[i] == outputPath[i - 14]; }
      }
    }
  }

  /** `lit + x` read as `a + (b + x)` when the literal `lit` is `a + b`. */
  lemma Regroup(lit: string, a: string, b: string, x: string)
    requires lit == a + b
    ensures lit + x == a + (b + x)
  {
  }

  lemma JoinedOutputWords(outputPath: string)
    ensures " " + JoinWithSpaces(["--output=text", "--output-file=" + outputPath]) ==
      " --output=text --output-file=" + outputPath
  {
    var ws := ["--output=text", "--output-file=" + outputPath];
    var s6 := " --output-file=" + outputPath;
    assert JoinWithSpaces(ws[1..]) == ws[1];
    assert " " + JoinWithSpaces(ws[1..]) == s6 by {
      Regroup(" --output-file=", " ", "--output-file=", outputPath);
    }
    assert JoinWithSpaces(ws) == "--output=text" + s6;
    Regroup(" --output=text", " ", "--output=text", s6);
    Regroup(" --output=text --output-file=", " --output=text", " --output-file=", outputPath);
  }

  lemma JoinedModuleWords(profile: string, moduleName: string, outputPath: string)
    ensures " " + JoinWithSpaces(["--profile=" + profile, moduleName, "--output=text", "--output-file=" + outputPath]) ==
      " --profile=" + profile + (" " + moduleName + (" --output=text --output-file=" + outputPath))
  {
    var ws := ["--profile=" + profile, moduleName, "--output=text", "--output-file=" + outputPath];
    var s5 := " --output=text --output-file=" + outputPath;
    JoinedOutputWords(outputPath);
    assert ws[2..] == ["--output=text", "--output-file=" + outputPath];
    assert JoinWithSpaces(ws[1..]) == moduleName + s5;
    assert JoinWithSpaces(ws) == "--profile=" + profile + (" " + moduleName + s5);
    Regroup(" --profile=", " ", "--profile=", profile + (" " + moduleName + s5));
  }

  /** The formatted command string is the seven words joined by single spaces. */
  lemma CommandLineIsJoinedWords(localPath: string, profile: string, moduleName: string, outputPath: string)
    ensures CommandLine(localPath, profile, moduleName, outputPath) ==
      JoinWithSpaces(PatternWords(localPath, profile, moduleName, outputPath))
  {
    var words := PatternWords(localPath, profile, moduleName, outputPath);
    var s3 := " --profile=" + profile + (" " + moduleName + (" --output=text --output-file=" + outputPath));
    JoinedModuleWords(profile, moduleName, outputPath);
    assert words[3..] == ["--profile=" + profile, moduleName, "--output=text", "--output-file=" + outputPath];
    assert JoinWithSpaces(words[2..]) == localPath + s3;
    assert JoinWithSpaces(words) == "vol.py" + " " + ("-f" + " " + (localPath + s3));
    Regroup("vol.py -f ", "vol.py", " -f ", localPath + s3);
    Regroup(" -f ", " ", "-f ", localPath + s3);
    Regroup("-f ", "-f", " ", localPath + s3);
  }

  /**
   * When the evidence path and the module are non-empty tokens and the
   * profile and the output path hold no whitespace, the argument vector is
   * exactly the seven words of the command pattern.
   */
  lemma ArgvOfPlainArguments(localPath: string, profile: string, moduleName: string, outputPath: string)
    requires IsToken(localPath) && IsToken(moduleName)
    requires NoSpace(profile) && NoSpace(outputPath)
    ensures BuildArgv(localPath, profile, moduleName, outputPath) ==
      ["vol.py", "-f", localPath, "--profile=" + profile, moduleName, "--output=text",
       "--output-file=" + outputPath]
  {
    PatternWordsAreTokens(localPath, profile, moduleName, outputPath);
    CommandLineIsJoinedWords(localPath, profile, moduleName, outputPath);
    SplitJoin(PatternWords(localPath, profile, moduleName, outputPath));
  }

  lemma PrependTwo(a: string, b: string, rest: seq<string>)
    ensures [a] + ([b] + rest) == [a, b] + rest
  {
  }

  lemma FlattenEight(a: string, b: string, c: string, d: string, e: string, f: string, g: string, h: string)
    ensures [a, b] + ([c] + [d] + ([e] + ([f] + ([g] + [h])))) == [a, b, c, d, e, f, g, h]
  {
  }

  /** The fixed words of the command pattern are single arguments. */
  lemma FixedWordsSplit()
    ensures Split("vol.py") == ["vol.py"] && Split("-f") == ["-f"]
    ensures Split("--output=text") == ["--output=text"]
  {
    VisibleAsciiIsToken("vol.py");
    SplitOfToken("vol.py");
    VisibleAsciiIsToken("-f");
    SplitOfToken("-f");
    VisibleAsciiIsToken("--output=text");
    SplitOfToken("--output=text");
  }

  /**
   * For any inputs, the argument vector is the words of each placeholder in
   * turn: `vol.py`, `-f`, the words of the evidence path, the words of the
   * profile option, the words of the module, `--output=text` and the words of
   * the output option. Whitespace inside an input splits it into several
   * arguments; an empty path or module gives none.
   */
  lemma ArgvIsWordsOfEachPart(localPath: string, profile: string, moduleName: string, outputPath: string)
    ensures BuildArgv(localPath, profile, moduleName, outputPath) ==
      ["vol.py", "-f"] + (Split(localPath) + (Split("--profile=" + profile) + (Split(moduleName) +
      (["--output=text"] + Split("--output-file=" + outputPath)))))
  {
    var ws := PatternWords(localPath, profile, moduleName, outputPath);
    CommandLineIsJoinedWords(localPath, profile, moduleName, outputPath);
    SplitOfJoin(ws);
    SplitEachSeven(ws);
    FixedWordsSplit();
    PrependTwo("vol.py", "-f", Split(localPath) + (Split("--profile=" + profile) + (Split(moduleName) +
      (["--output=text"] + Split("--output-file=" + outputPath)))));
  }

  /**
   * An evidence path holding one space reaches `vol.py` as two separate
   * arguments, so the tool is handed eight words.
   */
  lemma ArgvOfSpacedPath(first: string, second: string, profile: string, moduleName: string, outputPath: string)
    requires IsToken(first) && IsToken(second) && IsToken(moduleName)
    requires NoSpace(profile) && NoSpace(outputPath)
    ensures BuildArgv(first + " " + second, profile, moduleName, outputPath) ==
      ["vol.py", "-f", first, second, "--profile=" + profile, moduleName, "--output=text",
       "--output-file=" + outputPath]
  {
    var p, o := "--profile=" + profile, "--output-file=" + outputPath;
    ArgvIsWordsOfEachPart(first + " " + second, profile, moduleName, outputPath);
    assert first + " " + second == first + [' '] + second;
    SplitAtSpace(first, ' ', second);
    SplitOfToken(first);
    SplitOfToken(second);
    SplitOfToken(moduleName);
    PatternWordsAreTokens(first, profile, moduleName, outputPath);
    assert PatternWords(first, profile, moduleName, outputPath)[3] == p;
    assert PatternWords(first, profile, moduleName, outputPath)[6] == o;
    SplitOfToken(p);
    SplitOfToken(o);
    FlattenEight("vol.py", "-f", first, second, p, moduleName, "--output=text", o);
  }
}
