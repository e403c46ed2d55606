/** `merge_mp4_ffmpeg.py`: merge the videos of a list file with ffmpeg's concat demuxer, without re-encoding. */
module MergeFfmpeg {
  import opened Base
  import opened Text
  import opened PathOps
  import opened ConcatList
  import opened ConcatMerge

  const DefaultOutput := "merged_output.mp4"
  const EmptyListMsg := "列表文件为空或格式错误。每行应为: file 'path/to/video.mp4' 或 file 'http://...'，例如：\n  file '/path/to/a.mp4'\n  file 'http://dlcdn1.cgyouxi.com/shareres/xx/xx.mp4'"

  /** `merge_by_concat_list`: a missing list raises FileNotFoundError, one without `file` lines ValueError, a failed ffmpeg RuntimeError. */
  function MergeByConcatList(
    listPath: string, outputPath: string, ffmpegBin: string, cwd: string,
    file: Option<string>, run: seq<string> -> ProcResult): (r: MergeRun)
    requires StartsWith(cwd, "/")
    ensures file.None? ==> r.result == Err(Raised("FileNotFoundError", MissingListPrefix + listPath)) && r.cmd.None?
    ensures file.Some? && ReadValidLines(file.value) == [] ==> r.result == Err(Raised("ValueError", EmptyListMsg)) && r.cmd.None?
    ensures r.cmd.Some? ==> r.cmd.value == ConcatCommand(ffmpegBin, AbsPath(cwd, listPath), AbsPath(cwd, outputPath))
    ensures r.result.Ok? <==> r.cmd.Some? && Exited0(run(r.cmd.value))
    ensures r.cmd.Some? && run(r.cmd.value).RunRaised? ==> r.result == Err(run(r.cmd.value).error)
    ensures r.result.Ok? ==> r.result.value == AbsPath(cwd, outputPath)
  {
    ConcatMerge.MergeByConcatList("FileNotFoundError", EmptyListMsg, listPath, outputPath, ffmpegBin, cwd, file, run)
  }

  /** `main`'s output: the default name is put in the script's tmp directory; any other path is used as given. */
  function OutputPath(arg: string, tmpDir: string): (r: string)
    ensures arg == DefaultOutput ==> r == PathJoin(tmpDir, DefaultOutput) && Basename(r) == DefaultOutput
    ensures arg != DefaultOutput ==> r == arg
  {
    if arg == DefaultOutput then
      BasenameOfJoin(tmpDir, DefaultOutput);
      PathJoin(tmpDir, DefaultOutput)
    else arg
  }

  /** Only the literal default moves: the same file named another way stays where it was asked. */
  lemma OnlyTheLiteralDefaultMoves(tmpDir: string)
    ensures OutputPath("./merged_output.mp4", tmpDir) == "./merged_output.mp4"
  {
    assert "./merged_output.mp4" != DefaultOutput;
  }
}
