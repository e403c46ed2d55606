/**
 * `cut_video_first_frame/first_frame_ffmpeg.py`: save the first frame of a
 * video (a local file or a URL, downloaded to a temporary file first) as an
 * image with one ffmpeg call.
 */
module FirstFrameFfmpeg {
  import opened Base
  import opened Text
  import opened PathOps
  import opened ConcatMerge

  const NeedRequestsMsg := "从 URL 下载需安装: pip install requests"
  const MissingLocalPrefix := "本地文件不存在: "
  const FfmpegFailedPrefix := "ffmpeg 执行失败: "
  const EvenScale := "scale=trunc(iw/2)*2:trunc(ih/2)*2"
  const Suffix := "_first_frame."

  /** The image extension: "jpg" for jpg or jpeg in any case, "png" for everything else. */
  function Ext(format: string): (r: string)
    ensures r == "jpg" <==> Lower(format) == "jpg" || Lower(format) == "jpeg"
    ensures r == "jpg" || r == "png"
  {
    if Lower(format) != "jpg" && Lower(format) != "jpeg" then "png" else "jpg"
  }

  /** Whether the even-size scale filter is added: a jpg format or an output ending in `.jpg` in any case. */
  predicate NeedsEvenSize(format: string, outputPath: string) {
    Lower(format) == "jpg" || EndsWith(Lower(outputPath), ".jpg")
  }

  /** The ffmpeg argument list: one frame of the input, the scale filter when needed, quality 2. */
  function FrameArgs(ffmpegCmd: string, videoPath: string, outputPath: string, format: string): (r: seq<string>)
    ensures |r| == (if NeedsEvenSize(format, outputPath) then 11 else 9)
    ensures r[..6] == [ffmpegCmd, "-y", "-i", videoPath, "-vframes", "1"]
    ensures NeedsEvenSize(format, outputPath) ==> r[6..8] == ["-vf", EvenScale]
    ensures r[|r| - 3..] == ["-q:v", "2", outputPath]
  {
    [ffmpegCmd, "-y", "-i", videoPath, "-vframes", "1"]
    + (if NeedsEvenSize(format, outputPath) then ["-vf", EvenScale] else [])
    + ["-q:v", "2", outputPath]
  }

  /** The error text: the stripped stderr, or the exit code when stderr is blank. */
  function FailureDetail(p: ProcResult): string
    requires p.ProcResult?
  {
    if Strip(p.stderr) != "" then Strip(p.stderr) else IntToString(p.returncode)
  }

  /** `capture_first_frame_ffmpeg`'s outcome for an argument list: the absolute output path, or RuntimeError. */
  function FrameOutcome(args: seq<string>, outputPath: string, cwd: string, run: seq<string> -> ProcResult): (r: Result<string, Raised>)
    requires StartsWith(cwd, "/")
    ensures r.Ok? <==> Exited0(run(args))
    ensures r.Ok? ==> r.value == AbsPath(cwd, outputPath)
    ensures run(args).RunRaised? ==> r == Err(run(args).error)
    ensures run(args).ProcResult? && r.Err? ==> r.error == Raised("RuntimeError", FfmpegFailedPrefix + FailureDetail(run(args)))
  {
    if run(args).RunRaised? then Err(run(args).error)
    else if run(args).returncode != 0 then Err(Raised("RuntimeError", FfmpegFailedPrefix + FailureDetail(run(args))))
    else Ok(AbsPath(cwd, outputPath))
  }

  /** `capture_first_frame_ffmpeg`: the list is built and extended in place, then run. */
  method CaptureFirstFrameFfmpeg(videoPath: string, outputPath: string, format: string, ffmpegCmd: string,
                                 cwd: string, run: seq<string> -> ProcResult) returns (args: seq<string>, r: Result<string, Raised>)
    requires StartsWith(cwd, "/")
    ensures args == FrameArgs(ffmpegCmd, videoPath, outputPath, format)
    ensures r == FrameOutcome(args, outputPath, cwd, run)
  {
    args := [ffmpegCmd, "-y", "-i", videoPath, "-vframes", "1"];
    if Lower(format) == "jpg" || EndsWith(Lower(outputPath), ".jpg") {
      args := args + ["-vf", EvenScale];
    }
    args := args + ["-q:v", "2", outputPath];
    var result := run(args);
    if result.RunRaised? {
      return args, Err(result.error);
    }
    if result.returncode != 0 {
      return args, Err(Raised("RuntimeError", FfmpegFailedPrefix + FailureDetail(result)));
    }
    r := Ok(AbsPath(cwd, outputPath));
  }

  // ------------------------------------------------------- the default output

  /** The stem of a URL: the path before `?`, trailing slashes removed, basename without extension. */
  function UrlStem(source: string): string {
    StemOf(RStripChar(Split(source, '?')[0], '/'))
  }

  /** An empty stem, or one that still ends in `.mp4`, is replaced by "frame". */
  function FrameBase(base: string): (r: string)
    ensures r != ""
    ensures base != "" && !EndsWith(base, ".mp4") ==> r == base
    ensures base == "" || EndsWith(base, ".mp4") ==> r == "frame"
  {
    if base == "" || EndsWith(base, ".mp4") then "frame" else base
  }

  /** The file name of the default output. */
  function DefaultName(base: string, ext: string): string {
    FrameBase(base) + Suffix + ext
  }

  /**
   * The default output: in the script's tmp directory, named after the
   * source's stem (the URL's, not the temporary file's) with
   * `_first_frame.<ext>`.
   */
  function DefaultOutput(source: string, videoPath: string, ext: string, tmpDir: string): string {
    PathJoin(tmpDir, DefaultName(if IsUrl(source) then UrlStem(source) else StemOf(videoPath), ext))
  }

  lemma StemHasNoSlash(p: string)
    ensures '/' !in StemOf(p)
  {
    var parts := SplitExt(Basename(p));
    PrefixHasNoSlash(parts.0, parts.1);
  }

  lemma PrefixHasNoSlash(s: string, e: string)
    requires '/' !in s + e
    ensures '/' !in s
  {
    assert forall k :: 0 <= k < |s| ==> s[k] == (s + e)[k];
  }

  /** The default image lands in the tmp directory, named after the stem with `_first_frame.<ext>`, and ends with `.<ext>`. */
  lemma DefaultOutputShape(source: string, videoPath: string, ext: string, tmpDir: string)
    requires '/' !in ext
    ensures var base := if IsUrl(source) then UrlStem(source) else StemOf(videoPath);
      && Basename(DefaultOutput(source, videoPath, ext, tmpDir)) == FrameBase(base) + Suffix + ext
      && EndsWith(DefaultOutput(source, videoPath, ext, tmpDir), "." + ext)
  {
    var base := if IsUrl(source) then UrlStem(source) else StemOf(videoPath);
    if IsUrl(source) {
      StemHasNoSlash(RStripChar(Split(source, '?')[0], '/'));
    } else {
      StemHasNoSlash(videoPath);
    }
    FrameBaseHasNoSlash(base);
    NameInDir(tmpDir, FrameBase(base), ext);
  }

  lemma FrameBaseHasNoSlash(base: string)
    requires '/' !in base
    ensures '/' !in FrameBase(base)
  {
    var fb := FrameBase(base);
    if fb == "frame" {
      assert forall k :: 0 <= k < |fb| ==> fb[k] != '/';
    }
  }

  lemma SuffixHasNoSlash()
    ensures '/' !in Suffix
  {
    assert forall k :: 0 <= k < |Suffix| ==> Suffix[k] != '/';
  }

  /** `<dir>/<fb>_first_frame.<ext>` has that name as its basename and ends with `.<ext>`. */
  lemma NameInDir(dir: string, fb: string, ext: string)
    requires '/' !in fb && '/' !in ext && fb != ""
    ensures Basename(PathJoin(dir, fb + Suffix + ext)) == fb + Suffix + ext
    ensures EndsWith(PathJoin(dir, fb + Suffix + ext), "." + ext)
  {
    SuffixHasNoSlash();
    var name := fb + Suffix + ext;
    assert '/' !in fb + Suffix;
    BasenameOfJoin(dir, name);
    NameEndsWithExt(PathJoin(dir, name), fb, ext);
  }

  lemma NameEndsWithExt(r: string, fb: string, ext: string)
    requires EndsWith(r, fb + Suffix + ext)
    ensures EndsWith(r, "." + ext)
  {
    var name := fb + Suffix + ext;
    assert name == (fb + "_first_frame") + ("." + ext);
    assert name[|name| - |"." + ext|..] == "." + ext;
    assert r[|r| - |"." + ext|..] == name[|name| - |"." + ext|..];
  }

  // ------------------------------------------------------- capture_first_frame

  /** The temporary download removed at the end, the ffmpeg arguments if it ran, and the outcome. */
  datatype FrameRun = FrameRun(removed: Option<string>, args: Option<seq<string>>, result: Result<string, Raised>)

  /**
   * `capture_first_frame`. `tempFile` is the path `mkstemp` makes in the tmp
   * directory, `download` the exception the download raises (None when it
   * saves the file), `isFile` whether a local source is a file.
   */
  function CaptureFirstFrame(source: string, outputArg: Option<string>, format: string, ffmpegCmd: string,
                             tmpDir: string, tempFile: string, cwd: string, requestsOk: bool,
                             download: Option<Raised>, isFile: bool, run: seq<string> -> ProcResult): (r: FrameRun)
    requires StartsWith(cwd, "/")
    ensures r.removed == (if IsUrl(source) then Some(tempFile) else None)
    ensures !IsUrl(source) && !isFile ==> r.result == Err(Raised("FileNotFoundError", MissingLocalPrefix + source)) && r.args.None?
    ensures IsUrl(source) && !requestsOk ==> r.result == Err(Raised("RuntimeError", NeedRequestsMsg)) && r.args.None?
    ensures IsUrl(source) && requestsOk && download.Some? ==> r.result == Err(download.value) && r.args.None?
    ensures r.args.Some? <==> (if IsUrl(source) then requestsOk && download.None? else isFile)
    ensures r.args.Some? ==>
              var out := if outputArg.Some? then RStrip(outputArg.value)
                         else DefaultOutput(source, if IsUrl(source) then tempFile else source, Ext(format), tmpDir);
              && r.args.value == FrameArgs(ffmpegCmd, if IsUrl(source) then tempFile else source, out, Ext(format))
              && r.result == FrameOutcome(r.args.value, out, cwd, run)
  {
    var removed := if IsUrl(source) then Some(tempFile) else None;
    var fetched: Result<string, Raised> :=
      if IsUrl(source) then
        if !requestsOk then Err(Raised("RuntimeError", NeedRequestsMsg))
        else if download.Some? then Err(download.value)
        else Ok(tempFile)
      else if !isFile then Err(Raised("FileNotFoundError", MissingLocalPrefix + source))
      else Ok(source);
    match fetched
    case Err(e) => FrameRun(removed, None, Err(e))
    case Ok(videoPath) =>
      var ext := Ext(format);
      var out := if outputArg.Some? then RStrip(outputArg.value) else DefaultOutput(source, videoPath, ext, tmpDir);
      var args := FrameArgs(ffmpegCmd, videoPath, out, ext);
      FrameRun(removed, Some(args), FrameOutcome(args, out, cwd, run))
  }

  /**
   * Because the extension is passed as the format, the scale filter is added
   * exactly when the image is a jpg or the output path ends in `.jpg`; a
   * "jpeg" format counts as jpg.
   */
  lemma EvenSizeForJpg(format: string, outputPath: string)
    ensures NeedsEvenSize(Ext(format), outputPath) <==>
              Lower(format) == "jpg" || Lower(format) == "jpeg" || EndsWith(Lower(outputPath), ".jpg")
  {
    assert Lower("jpg") == "jpg";
    assert Lower("png") == "png";
  }
}
