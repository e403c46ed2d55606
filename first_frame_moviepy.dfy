/**
 * `cut_video_first_frame/first_frame_moviepy.py`: save the first frame of a
 * video (a local file or a URL, downloaded to a temporary file first) with
 * MoviePy. The frame decoding is outside this model; the paths, the error
 * cases and the temporary file's life are in it.
 */
module FirstFrameMoviepy {
  import opened Base
  import opened Text
  import opened PathOps
  import FirstFrameFfmpeg

  const MissingLocalPrefix := "本地文件不存在: "

  /**
   * The default output as written: the stem of the file the frame is read
   * from, which for a URL is the random temporary file, not the URL.
   */
  function DefaultOutputAsWritten(videoPath: string, format: string): string {
    FirstFrameFfmpeg.FrameBase(StemOf(videoPath)) + FirstFrameFfmpeg.Suffix + LStripChar(format, '.')
  }

  /**
   * The default output as documented ("generated from the source"): a URL's
   * own stem, as the ffmpeg script derives it, and a local file's stem; the
   * image is written to the current directory.
   */
  function DefaultOutput(source: string, videoPath: string, format: string): string {
    var base := if IsUrl(source) then FirstFrameFfmpeg.UrlStem(source) else StemOf(videoPath);
    FirstFrameFfmpeg.FrameBase(base) + FirstFrameFfmpeg.Suffix + LStripChar(format, '.')
  }

  /**
   * As written, a URL's frame is named after the temporary file whenever its
   * stem gives another base than the URL's: the name depends on `mkstemp`,
   * not on the source.
   */
  lemma TempNameLeaks(source: string, tempFile: string, format: string)
    requires IsUrl(source)
    requires FirstFrameFfmpeg.FrameBase(StemOf(tempFile)) != FirstFrameFfmpeg.FrameBase(FirstFrameFfmpeg.UrlStem(source))
    ensures DefaultOutputAsWritten(tempFile, format) != DefaultOutput(source, tempFile, format)
  {
    if DefaultOutputAsWritten(tempFile, format) == DefaultOutput(source, tempFile, format) {
      SameNameSameBase(FirstFrameFfmpeg.FrameBase(StemOf(tempFile)), FirstFrameFfmpeg.FrameBase(FirstFrameFfmpeg.UrlStem(source)),
                       LStripChar(format, '.'));
    }
  }

  /** Two names with the same suffix are the same only when their bases are. */
  lemma SameNameSameBase(a: string, b: string, e: string)
    requires a + FirstFrameFfmpeg.Suffix + e == b + FirstFrameFfmpeg.Suffix + e
    ensures a == b
  {
    var x := a + FirstFrameFfmpeg.Suffix + e;
    assert |a| == |b|;
    assert x[..|a|] == a;
  }

  /** The basename of `a/b` is `b` when `b` has no slash. */
  lemma BasenameAfterSlash(a: string, b: string)
    requires '/' !in b
    ensures Basename(a + "/" + b) == b
  {
    LastIndexAfter(a, '/', b);
    assert (a + "/" + b)[|a| + 1..] == b;
  }

  /** The stem of `<dir>/<stem>.<ext>` is `stem` when neither part has a slash and the stem does not start with a dot. */
  lemma StemInDir(dir: string, stem: string, ext: string)
    requires '/' !in stem && '/' !in ext && '.' !in ext
    requires stem != [] && stem[0] != '.'
    ensures StemOf(dir + "/" + (stem + "." + ext)) == stem
  {
    var name := stem + "." + ext;
    assert forall k :: 0 <= k < |name| ==> name[k] != '/' by {
      assert forall k :: 0 <= k < |stem| ==> name[k] == stem[k];
      assert forall k :: |stem| < k < |name| ==> name[k] == ext[k - |stem| - 1];
    }
    BasenameAfterSlash(dir, name);
    SplitExtOfName(stem, ext);
  }

  /** "mp4" has neither a slash nor a dot. */
  lemma Mp4Plain()
    ensures '/' !in "mp4" && '.' !in "mp4"
  {
    assert forall k :: 0 <= k < |"mp4"| ==> "mp4"[k] != '/' && "mp4"[k] != '.';
  }

  lemma TempStem()
    ensures StemOf("/tmp/tmpk2j.mp4") == "tmpk2j"
  {
    assert "/tmp/tmpk2j.mp4" == "/tmp" + "/" + ("tmpk2j" + "." + "mp4");
    assert forall k :: 0 <= k < |"tmpk2j"| ==> "tmpk2j"[k] != '/';
    Mp4Plain();
    StemInDir("/tmp", "tmpk2j", "mp4");
  }

  /** A URL with no query and no trailing slash has the stem of its last segment. */
  lemma UrlStemOfPlainUrl(src: string)
    requires '?' !in src && src != [] && src[|src| - 1] != '/'
    ensures FirstFrameFfmpeg.UrlStem(src) == StemOf(src)
  {
    SplitNoSeparator(src, '?');
    assert Split(src, '?')[0] == src;
    assert RStripChar(src, '/') == src;
  }

  lemma ClipFileStem()
    ensures StemOf("http://h/clip.mp4") == "clip"
  {
    assert "http://h/clip.mp4" == "http://h" + "/" + ("clip" + "." + "mp4");
    assert forall k :: 0 <= k < |"clip"| ==> "clip"[k] != '/';
    Mp4Plain();
    StemInDir("http://h", "clip", "mp4");
  }

  lemma ClipStem()
    ensures FirstFrameFfmpeg.UrlStem("http://h/clip.mp4") == "clip"
  {
    var src := "http://h/clip.mp4";
    assert forall k :: 0 <= k < |src| ==> src[k] != '?';
    UrlStemOfPlainUrl(src);
    ClipFileStem();
  }

  /** The source `http://h/clip.mp4` saved to `/tmp/tmpk2j.mp4` gives `tmpk2j_first_frame.png` as written ... */
  lemma TempNameExample()
    ensures DefaultOutputAsWritten("/tmp/tmpk2j.mp4", "png") == "tmpk2j" + FirstFrameFfmpeg.Suffix + "png"
  {
    ImageFormatPlain("png");
    TempStem();
    PlainFrameBase("tmpk2j");
  }

  /** A stem that does not end in `4` is its own frame base. */
  lemma PlainFrameBase(stem: string)
    requires stem != [] && stem[|stem| - 1] != '4'
    ensures FirstFrameFfmpeg.FrameBase(stem) == stem
  {
    assert !EndsWith(stem, ".mp4") by {
      if |stem| >= 4 {
        assert stem[|stem| - 4..][3] == stem[|stem| - 1];
      }
    }
  }

  /** ... and `clip_first_frame.png` as intended. */
  lemma SourceNameExample()
    ensures DefaultOutput("http://h/clip.mp4", "/tmp/tmpk2j.mp4", "png") == "clip" + FirstFrameFfmpeg.Suffix + "png"
  {
    var src := "http://h/clip.mp4";
    assert src[..7] == "http://";
    UrlDefaultOutput(src, "/tmp/tmpk2j.mp4", "png");
    ClipStem();
    PlainFrameBase("clip");
  }

  /** A URL's default output is named after the URL's stem. */
  lemma UrlDefaultOutput(source: string, videoPath: string, format: string)
    requires IsUrl(source) && (format == "png" || format == "jpg")
    ensures DefaultOutput(source, videoPath, format)
         == FirstFrameFfmpeg.FrameBase(FirstFrameFfmpeg.UrlStem(source)) + FirstFrameFfmpeg.Suffix + format
  {
    ImageFormatPlain(format);
  }

  /** For a local file the two agree: only URLs are affected. */
  lemma LocalSourceUnaffected(source: string, format: string)
    requires !IsUrl(source)
    ensures DefaultOutputAsWritten(source, format) == DefaultOutput(source, source, format)
  {
  }

  /**
   * The corrected name is the one the ffmpeg script gives the same source
   * and format, without its tmp directory; in particular it does not depend
   * on the temporary file.
   */
  lemma SameNameAsFfmpegScript(source: string, videoPath: string, format: string, tmpDir: string)
    requires format == "png" || format == "jpg"
    ensures DefaultOutput(source, videoPath, format)
            == Basename(FirstFrameFfmpeg.DefaultOutput(source, videoPath, format, tmpDir))
  {
    ImageFormatPlain(format);
    FirstFrameFfmpeg.DefaultOutputShape(source, videoPath, format, tmpDir);
    var base := if IsUrl(source) then FirstFrameFfmpeg.UrlStem(source) else StemOf(videoPath);
    assert DefaultOutput(source, videoPath, format) == FirstFrameFfmpeg.FrameBase(base) + FirstFrameFfmpeg.Suffix + format;
  }

  /** "png" and "jpg" have no leading dot and no slash. */
  lemma ImageFormatPlain(format: string)
    requires format == "png" || format == "jpg"
    ensures LStripChar(format, '.') == format && '/' !in format
  {
    assert format[0] != '.';
    assert forall k :: 0 <= k < |format| ==> format[k] != '/';
  }

  /** The temporary file removed at the end, the output the frame is saved to if it got that far, and the outcome. */
  datatype FrameRun = FrameRun(removed: Option<string>, output: Option<string>, result: Result<string, Raised>)

  /**
   * The file the frame is read from: the temporary file a URL is downloaded
   * to, or the local source when it is a file.
   */
  function Fetched(source: string, tempFile: string, download: Option<Raised>, isFile: bool): (r: Result<string, Raised>)
    ensures IsUrl(source) ==> r == (if download.Some? then Err(download.value) else Ok(tempFile))
    ensures !IsUrl(source) ==> r == (if isFile then Ok(source) else Err(Raised("FileNotFoundError", MissingLocalPrefix + source)))
  {
    if IsUrl(source) then
      if download.Some? then Err(download.value) else Ok(tempFile)
    else if !isFile then Err(Raised("FileNotFoundError", MissingLocalPrefix + source))
    else Ok(source)
  }

  /**
   * `capture_first_frame`, with the default output named after the source.
   * `tempFile` is the path `mkstemp` makes, `download` the exception the
   * download raises, `isFile` whether a local source is a file and
   * `clipError` the exception opening or saving the clip raises.
   */
  function CaptureFirstFrame(source: string, outputArg: Option<string>, format: string, tempFile: string, cwd: string,
                             download: Option<Raised>, isFile: bool, clipError: Option<Raised>): (r: FrameRun)
    requires StartsWith(cwd, "/")
    ensures r.removed == (if IsUrl(source) then Some(tempFile) else None)
    ensures !IsUrl(source) && !isFile ==> r == FrameRun(None, None, Err(Raised("FileNotFoundError", MissingLocalPrefix + source)))
    ensures IsUrl(source) && download.Some? ==> r == FrameRun(Some(tempFile), None, Err(download.value))
    ensures r.output.Some? <==> (if IsUrl(source) then download.None? else isFile)
    ensures r.output.Some? ==> r.output.value == (if outputArg.Some? then outputArg.value
                                                 else DefaultOutput(source, if IsUrl(source) then tempFile else source, format))
    ensures r.result.Ok? <==> r.output.Some? && clipError.None?
    ensures r.result.Ok? ==> r.result.value == AbsPath(cwd, r.output.value)
  {
    var removed := if IsUrl(source) then Some(tempFile) else None;
    match Fetched(source, tempFile, download, isFile)
    case Err(e) => FrameRun(removed, None, Err(e))
    case Ok(videoPath) =>
      var out := if outputArg.Some? then outputArg.value else DefaultOutput(source, videoPath, format);
      FrameRun(removed, Some(out), if clipError.Some? then Err(clipError.value) else Ok(AbsPath(cwd, out)))
  }

  /** `capture_first_frame` as written: the default output is named after the file the frame is read from. */
  function CaptureFirstFrameAsWritten(source: string, outputArg: Option<string>, format: string, tempFile: string, cwd: string,
                                      download: Option<Raised>, isFile: bool, clipError: Option<Raised>): (r: FrameRun)
    requires StartsWith(cwd, "/")
    ensures r.removed == (if IsUrl(source) then Some(tempFile) else None)
    ensures r.output.Some? <==> (if IsUrl(source) then download.None? else isFile)
    ensures r.output.Some? ==> r.output.value == (if outputArg.Some? then outputArg.value
                                                 else DefaultOutputAsWritten(if IsUrl(source) then tempFile else source, format))
    ensures r.result.Ok? <==> r.output.Some? && clipError.None?
    ensures r.result.Ok? ==> r.result.value == AbsPath(cwd, r.output.value)
  {
    var removed := if IsUrl(source) then Some(tempFile) else None;
    match Fetched(source, tempFile, download, isFile)
    case Err(e) => FrameRun(removed, None, Err(e))
    case Ok(videoPath) =>
      var out := if outputArg.Some? then outputArg.value else DefaultOutputAsWritten(videoPath, format);
      FrameRun(removed, Some(out), if clipError.Some? then Err(clipError.value) else Ok(AbsPath(cwd, out)))
  }

  /**
   * The two captures differ only in the default name of a downloaded URL's
   * frame: with an explicit output, or for a local source, they agree.
   */
  lemma CaptureDiffersOnlyForUrlDefault(source: string, outputArg: Option<string>, format: string, tempFile: string, cwd: string,
                                        download: Option<Raised>, isFile: bool, clipError: Option<Raised>)
    requires StartsWith(cwd, "/")
    requires outputArg.Some? || !IsUrl(source)
    ensures CaptureFirstFrameAsWritten(source, outputArg, format, tempFile, cwd, download, isFile, clipError)
         == CaptureFirstFrame(source, outputArg, format, tempFile, cwd, download, isFile, clipError)
  {
    if outputArg.None? {
      LocalSourceUnaffected(source, format);
    }
  }

  /** As written, a downloaded URL's frame lands under the temporary file's name whenever that differs from the URL's. */
  lemma CaptureAsWrittenUsesTempName(source: string, format: string, tempFile: string, cwd: string, clipError: Option<Raised>)
    requires StartsWith(cwd, "/") && IsUrl(source)
    requires FirstFrameFfmpeg.FrameBase(StemOf(tempFile)) != FirstFrameFfmpeg.FrameBase(FirstFrameFfmpeg.UrlStem(source))
    ensures CaptureFirstFrameAsWritten(source, None, format, tempFile, cwd, None, true, clipError).output
         != CaptureFirstFrame(source, None, format, tempFile, cwd, None, true, clipError).output
  {
    TempNameLeaks(source, tempFile, format);
  }

  /** Two URLs with the same path give the same default name whatever temporary files they were saved to. */
  lemma DefaultNameIgnoresTemp(source: string, outputArg: Option<string>, format: string, t1: string, t2: string,
                               cwd: string, clipError: Option<Raised>)
    requires StartsWith(cwd, "/") && IsUrl(source) && outputArg.None?
    ensures CaptureFirstFrame(source, outputArg, format, t1, cwd, None, true, clipError).output
            == CaptureFirstFrame(source, outputArg, format, t2, cwd, None, true, clipError).output
  {
  }
}
