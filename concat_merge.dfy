/**
 * `merge_by_concat_list` as the two ffmpeg merge scripts write it: check the
 * list file, check that it has a `file` line, then run ffmpeg's concat demuxer
 * with stream copy and hand back the absolute output path.
 */
module ConcatMerge {
  import opened Base
  import opened Text
  import opened PathOps
  import opened ConcatList

  /**
   * How a `subprocess` call ended: the process finished with its exit code and
   * captured output, or the call raised before there was a result (the program
   * is not found, the timeout ran out).
   */
  datatype ProcResult =
    | ProcResult(returncode: int, stdout: string, stderr: string)
    | RunRaised(error: Raised)

  /** The process ran and exited with 0. */
  predicate Exited0(p: ProcResult) {
    p.ProcResult? && p.returncode == 0
  }

  const ProtocolWhitelist := "file,http,https,tcp,tls,crypto,data,httpproxy,httpsproxy"
  const MissingListPrefix := "列表文件不存在: "
  const FfmpegFailedPrefix := "ffmpeg 执行失败:\n"

  /** The ffmpeg command line: concat demuxer, unsafe names allowed, network protocols whitelisted, streams copied. */
  function ConcatCommand(ffmpegBin: string, listAbs: string, outAbs: string): seq<string> {
    [ffmpegBin, "-y", "-f", "concat", "-safe", "0", "-protocol_whitelist", ProtocolWhitelist,
     "-i", listAbs, "-c", "copy", outAbs]
  }

  /** `_read_concat_list`: the stripped, non-blank lines of the file that start with `file `. */
  function ReadValidLines(content: string): (r: seq<string>)
    ensures forall i :: 0 <= i < |r| ==> StartsWith(r[i], "file ") && Trimmed(r[i]) && r[i] != ""
  {
    ValidLines(NonBlank(Lines(FileLines, content)))
  }

  /** A list the check accepts can still name no path: the check only looks at the line's start. */
  lemma AcceptedListMayNameNothing()
    ensures ReadValidLines("file ''") != [] && FileListPaths("file ''") == []
  {
    var s := "file ''";
    assert NoBreak(FileLines, s);
    LinesOfLine(FileLines, s);
    StripOfTrimmed(s);
    assert NonBlank([s]) == [s] + NonBlank([]);
    EmptyFileLineNamesNothing();
  }

  /** The `stderr or stdout` of the error message. */
  function Output(p: ProcResult): string
    requires p.ProcResult?
  {
    if p.stderr != "" then p.stderr else p.stdout
  }

  /** The command ffmpeg was started with, if validation let it start, and how the call ended. */
  datatype MergeRun = MergeRun(cmd: Option<seq<string>>, result: Result<string, Raised>)

  /**
   * `merge_by_concat_list`. `file` is the list file's content (None when it is no
   * file), `run` what ffmpeg leaves for a command line, `cwd` the working
   * directory, `missingKind` the exception class the script raises for a
   * missing list and `emptyMessage` its message for a list without `file` lines.
   */
  function MergeByConcatList(
    missingKind: string, emptyMessage: string, listPath: string, outputPath: string, ffmpegBin: string,
    cwd: string, file: Option<string>, run: seq<string> -> ProcResult): (r: MergeRun)
    requires StartsWith(cwd, "/")
    ensures file.None? ==> r == MergeRun(None, Err(Raised(missingKind, MissingListPrefix + listPath)))
    ensures file.Some? && ReadValidLines(file.value) == [] ==> r == MergeRun(None, Err(Raised("ValueError", emptyMessage)))
    ensures r.cmd.Some? <==> file.Some? && ReadValidLines(file.value) != []
    ensures r.cmd.Some? ==> r.cmd.value == ConcatCommand(ffmpegBin, AbsPath(cwd, listPath), AbsPath(cwd, outputPath))
    ensures r.result.Ok? <==> r.cmd.Some? && Exited0(run(r.cmd.value))
    ensures r.result.Ok? ==> r.result.value == AbsPath(cwd, outputPath) && StartsWith(r.result.value, "/")
    ensures r.cmd.Some? && run(r.cmd.value).RunRaised? ==> r.result == Err(run(r.cmd.value).error)
    ensures r.cmd.Some? && run(r.cmd.value).ProcResult? && r.result.Err? ==>
      r.result.error == Raised("RuntimeError", FfmpegFailedPrefix + Output(run(r.cmd.value)))
  {
    if file.None? then MergeRun(None, Err(Raised(missingKind, MissingListPrefix + listPath)))
    else if ReadValidLines(file.value) == [] then MergeRun(None, Err(Raised("ValueError", emptyMessage)))
    else
      var cmd := ConcatCommand(ffmpegBin, AbsPath(cwd, listPath), AbsPath(cwd, outputPath));
      var p := run(cmd);
      if p.RunRaised? then MergeRun(Some(cmd), Err(p.error))
      else if p.returncode != 0 then MergeRun(Some(cmd), Err(Raised("RuntimeError", FfmpegFailedPrefix + Output(p))))
      else MergeRun(Some(cmd), Ok(AbsPath(cwd, outputPath)))
  }
}
