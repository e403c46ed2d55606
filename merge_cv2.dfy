/**
 * `merge_mp4_cv2.py`: fetch the entries of a list, re-encode their frames into
 * one video with OpenCV, then put the concatenated audio back with ffmpeg. The
 * frame work is outside this model; the downloads, the paths chosen, the audio
 * list and the order of the error checks are in it.
 */
module MergeCv2 {
  import opened Base
  import opened Text
  import opened PathOps
  import opened ConcatList
  import opened ConcatMerge

  const NeedRequestsMsg := "支持 URL 需安装 requests: pip install requests"
  const MissingLocalPrefix := "本地文件不存在: "
  const EmptyListMsg := "列表文件为空或格式错误。每行应为: file 'path' 或 file 'http://...'"
  const CannotOpenPrefix := "无法打开视频: "
  const CannotCreatePrefix := "无法创建输出文件（可能不支持所选编码）: "
  const DefaultOutput := "merged_cv2.mp4"
  const DefaultMaxRetries := 3
  const VideoOnlyName := "video_only.mp4"
  const AudioListName := "audio_concat_list.txt"
  const AudioName := "audio_concat.m4a"

  /** The message that replaces the last SSL or connection error when certificates are checked. */
  function SslFailureMsg(e: Raised): string {
    "下载失败(SSL/连接): " + e.message + "。可尝试加参数: --no-verify-ssl（仅用于可信源）"
  }

  // ------------------------------------------------------- download_from_url

  /** How one request ended: saved, an SSL or connection error, or any other exception (an HTTP status, a write). */
  datatype Fetch = Fetched | ConnFailed(error: Raised) | FetchRaised(error: Raised)

  /** The requests made, the seconds slept between them, and the exception the call ends with, if any. */
  datatype DownloadRun = DownloadRun(calls: nat, sleeps: seq<nat>, error: Option<Raised>)

  /** The attempts from number `attempt` on; `get(k)` is how attempt `k` ends. */
  function DownloadFrom(get: nat -> Fetch, attempt: nat, maxRetries: nat, verifySsl: bool): (r: DownloadRun)
    requires attempt < maxRetries
    ensures attempt < r.calls <= maxRetries
    ensures |r.sleeps| == r.calls - attempt - 1
    ensures forall k :: 0 <= k < |r.sleeps| ==> r.sleeps[k] == attempt + 1 + k
    decreases maxRetries - attempt
  {
    match get(attempt)
    case Fetched => DownloadRun(attempt + 1, [], None)
    case FetchRaised(e) => DownloadRun(attempt + 1, [], Some(e))
    case ConnFailed(e) =>
      if attempt < maxRetries - 1 then
        var rest := DownloadFrom(get, attempt + 1, maxRetries, verifySsl);
        DownloadRun(rest.calls, [1 + attempt] + rest.sleeps, rest.error)
      else
        DownloadRun(attempt + 1, [], Some(if verifySsl then Raised("RuntimeError", SslFailureMsg(e)) else e))
  }

  /** `download_from_url` with `max_retries` attempts. With none at all it returns without downloading. */
  function Download(requestsOk: bool, get: nat -> Fetch, maxRetries: int, verifySsl: bool): DownloadRun {
    if !requestsOk then DownloadRun(0, [], Some(Raised("RuntimeError", NeedRequestsMsg)))
    else if maxRetries <= 0 then DownloadRun(0, [], None)
    else DownloadFrom(get, 0, maxRetries, verifySsl)
  }

  function Prepend(sleeps: seq<nat>, r: DownloadRun): DownloadRun {
    DownloadRun(r.calls, sleeps + r.sleeps, r.error)
  }

  /**
   * The retry loop. The `raise last_err` after the loop is never reached: the
   * last attempt returns or raises inside the loop, and with no attempt
   * `last_err` is still None; the loop below therefore ends without it.
   */
  method DownloadFromUrl(requestsOk: bool, get: nat -> Fetch, maxRetries: int, verifySsl: bool) returns (run: DownloadRun)
    ensures run == Download(requestsOk, get, maxRetries, verifySsl)
  {
    if !requestsOk {
      return DownloadRun(0, [], Some(Raised("RuntimeError", NeedRequestsMsg)));
    }
    var lastErr: Option<Raised> := None;
    var sleeps: seq<nat> := [];
    var attempt := 0;
    while attempt < maxRetries
      invariant 0 <= attempt
      invariant maxRetries > 0 ==> attempt < maxRetries
      invariant maxRetries > 0 ==> Download(requestsOk, get, maxRetries, verifySsl) == Prepend(sleeps, DownloadFrom(get, attempt, maxRetries, verifySsl))
      decreases maxRetries - attempt
    {
      match get(attempt)
      case Fetched =>
        return DownloadRun(attempt + 1, sleeps, None);
      case FetchRaised(e) =>
        return DownloadRun(attempt + 1, sleeps, Some(e));
      case ConnFailed(e) =>
        lastErr := Some(e);
        if attempt < maxRetries - 1 {
          RetryStep(sleeps, get, attempt, maxRetries, verifySsl);
          sleeps := sleeps + [1 + attempt];
        } else if verifySsl {
          return DownloadRun(attempt + 1, sleeps, Some(Raised("RuntimeError", SslFailureMsg(e))));
        } else {
          return DownloadRun(attempt + 1, sleeps, Some(e));
        }
      attempt := attempt + 1;
    }
    run := DownloadRun(0, [], None);
  }

  /** A connection error before the last attempt sleeps `1 + attempt` seconds and goes on with the next attempt. */
  lemma RetryStep(sleeps: seq<nat>, get: nat -> Fetch, attempt: nat, maxRetries: int, verifySsl: bool)
    requires attempt < maxRetries - 1 && get(attempt).ConnFailed?
    ensures Prepend(sleeps, DownloadFrom(get, attempt, maxRetries, verifySsl))
         == Prepend(sleeps + [1 + attempt], DownloadFrom(get, attempt + 1, maxRetries, verifySsl))
  {
    var rest := DownloadFrom(get, attempt + 1, maxRetries, verifySsl);
    assert sleeps + ([1 + attempt] + rest.sleeps) == (sleeps + [1 + attempt]) + rest.sleeps;
  }

  /**
   * What the attempts from `attempt` on amount to: every attempt but the last
   * failed with an SSL or connection error; the call succeeds iff the last one
   * saved the file; any other exception ends it at once with that exception;
   * the retries end with the last connection error, turned into RuntimeError
   * when certificates are checked.
   */
  lemma {:induction false} DownloadFromOutcome(get: nat -> Fetch, attempt: nat, maxRetries: nat, verifySsl: bool)
    requires attempt < maxRetries
    ensures var r := DownloadFrom(get, attempt, maxRetries, verifySsl);
      && (forall k :: attempt <= k < r.calls - 1 ==> get(k).ConnFailed?)
      && (r.error.None? <==> get(r.calls - 1).Fetched?)
      && (get(r.calls - 1).FetchRaised? ==> r.error == Some(get(r.calls - 1).error))
      && (get(r.calls - 1).ConnFailed? ==>
            r.calls == maxRetries
            && r.error == Some(if verifySsl then Raised("RuntimeError", SslFailureMsg(get(r.calls - 1).error)) else get(r.calls - 1).error))
    decreases maxRetries - attempt
  {
    if get(attempt).ConnFailed? && attempt < maxRetries - 1 {
      DownloadFromOutcome(get, attempt + 1, maxRetries, verifySsl);
    }
  }

  /**
   * The whole call: at most `max_retries` requests, sleeping 1, 2, … seconds
   * between them; only SSL and connection errors are retried; a final
   * connection failure with certificate checks on raises RuntimeError.
   */
  lemma DownloadOutcome(requestsOk: bool, get: nat -> Fetch, maxRetries: int, verifySsl: bool)
    requires requestsOk && maxRetries >= 1
    ensures var r := Download(requestsOk, get, maxRetries, verifySsl);
      && 1 <= r.calls <= maxRetries
      && r.sleeps == SleepsBefore(r.calls - 1)
      && (forall k :: 0 <= k < r.calls - 1 ==> get(k).ConnFailed?)
      && (r.error.None? <==> get(r.calls - 1).Fetched?)
      && (get(r.calls - 1).FetchRaised? ==> r.error == Some(get(r.calls - 1).error))
      && (get(r.calls - 1).ConnFailed? && verifySsl ==>
            r.calls == maxRetries && r.error == Some(Raised("RuntimeError", SslFailureMsg(get(r.calls - 1).error))))
  {
    DownloadFromOutcome(get, 0, maxRetries, verifySsl);
  }

  /** The pauses `1, 2, …, n` seconds. */
  function SleepsBefore(n: nat): (r: seq<nat>)
    ensures |r| == n && forall k :: 0 <= k < n ==> r[k] == k + 1
  {
    if n == 0 then [] else SleepsBefore(n - 1) + [n]
  }

  /** With no attempts allowed the call neither requests nor raises. */
  lemma NoAttemptsNoError(get: nat -> Fetch, maxRetries: int, verifySsl: bool)
    requires maxRetries <= 0
    ensures Download(true, get, maxRetries, verifySsl) == DownloadRun(0, [], None)
  {
  }

  // ------------------------------------------------------- resolve_path

  /** What the environment answers about one entry: is it a file, how do its requests end, its `hash()`. */
  datatype Env = Env(requestsOk: bool, isFile: string -> bool, fetch: string -> (nat -> Fetch), hash: string -> int)

  /** The local name of a URL: the basename of the part before `?`, or `video_<abs(hash) % 100000>.mp4`. */
  function UrlName(item: string, hash: int): (r: string)
    ensures r != "" && '/' !in r
  {
    var b := Basename(Split(item, '?')[0]);
    if b != "" then b
    else
      var n := NatToString((if hash < 0 then -hash else hash) % 100000);
      assert forall k :: 0 <= k < |n| ==> n[k] != '/';
      "video_" + n + ".mp4"
  }

  /** `resolve_path`: a URL is downloaded into the temporary directory; a local path must be a file and is kept as given. */
  function ResolvePath(item: string, tempDir: string, verifySsl: bool, env: Env): (r: Result<string, Raised>)
    ensures IsUrl(item) && r.Ok? ==> r.value == PathJoin(tempDir, UrlName(item, env.hash(item)))
    ensures !IsUrl(item) ==> (r.Ok? <==> env.isFile(item)) && (r.Ok? ==> r.value == item)
    ensures !IsUrl(item) && r.Err? ==> r.error == Raised("FileNotFoundError", MissingLocalPrefix + item)
  {
    if IsUrl(item) then
      var local := PathJoin(tempDir, UrlName(item, env.hash(item)));
      var d := Download(env.requestsOk, env.fetch(item), DefaultMaxRetries, verifySsl);
      if d.error.Some? then Err(d.error.value) else Ok(local)
    else if !env.isFile(item) then Err(Raised("FileNotFoundError", MissingLocalPrefix + item))
    else Ok(item)
  }

  /** A downloaded entry is saved in the temporary directory under its URL name. */
  lemma DownloadedIntoTempDir(item: string, tempDir: string, verifySsl: bool, env: Env)
    requires IsUrl(item) && ResolvePath(item, tempDir, verifySsl, env).Ok?
    ensures Basename(ResolvePath(item, tempDir, verifySsl, env).value) == UrlName(item, env.hash(item))
  {
    BasenameOfJoin(tempDir, UrlName(item, env.hash(item)));
  }

  /** The list resolved in order, stopping at the first entry that raises. */
  function Resolved(paths: seq<string>, tempDir: string, verifySsl: bool, env: Env): (r: Result<seq<string>, Raised>)
    ensures r.Ok? ==> |r.value| == |paths|
  {
    if paths == [] then Ok([])
    else
      var front := paths[..|paths| - 1];
      var last := paths[|paths| - 1];
      match Resolved(front, tempDir, verifySsl, env)
      case Err(e) => Err(e)
      case Ok(ls) =>
        match ResolvePath(last, tempDir, verifySsl, env)
        case Err(e) => Err(e)
        case Ok(l) => Ok(ls + [l])
  }

  /** Each resolved path is what `resolve_path` gives its entry; a failure is the exception of one of the entries. */
  lemma {:induction false} ResolvedEntries(paths: seq<string>, tempDir: string, verifySsl: bool, env: Env)
    ensures var r := Resolved(paths, tempDir, verifySsl, env);
      && (r.Ok? ==> forall k :: 0 <= k < |paths| ==> ResolvePath(paths[k], tempDir, verifySsl, env) == Ok(r.value[k]))
      && (r.Err? ==> exists k :: 0 <= k < |paths| && ResolvePath(paths[k], tempDir, verifySsl, env) == Err(r.error))
  {
    if paths != [] {
      var front := paths[..|paths| - 1];
      ResolvedEntries(front, tempDir, verifySsl, env);
      var r := Resolved(paths, tempDir, verifySsl, env);
      if r.Err? && Resolved(front, tempDir, verifySsl, env).Err? {
        var k :| 0 <= k < |front| && ResolvePath(front[k], tempDir, verifySsl, env) == Err(r.error);
        assert paths[k] == front[k];
      }
    }
  }

  /** The loop filling `local_paths`. */
  method ResolveAll(paths: seq<string>, tempDir: string, verifySsl: bool, env: Env) returns (r: Result<seq<string>, Raised>)
    ensures r == Resolved(paths, tempDir, verifySsl, env)
  {
    var local: seq<string> := [];
    for i := 0 to |paths|
      invariant Resolved(paths[..i], tempDir, verifySsl, env) == Ok(local)
    {
      assert paths[..i + 1][..i] == paths[..i];
      var p := ResolvePath(paths[i], tempDir, verifySsl, env);
      if p.Err? {
        PrefixErr(paths, i + 1, tempDir, verifySsl, env);
        return Err(p.error);
      }
      local := local + [p.value];
    }
    assert paths[..|paths|] == paths;
    r := Ok(local);
  }

  /** Once a prefix fails, the whole list fails with the same exception. */
  lemma {:induction false} PrefixErr(paths: seq<string>, n: nat, tempDir: string, verifySsl: bool, env: Env)
    requires n <= |paths| && Resolved(paths[..n], tempDir, verifySsl, env).Err?
    ensures Resolved(paths, tempDir, verifySsl, env) == Resolved(paths[..n], tempDir, verifySsl, env)
    decreases |paths| - n
  {
    if n < |paths| {
      assert paths[..n + 1][..n] == paths[..n];
      PrefixErr(paths, n + 1, tempDir, verifySsl, env);
    } else {
      assert paths[..n] == paths;
    }
  }

  // ------------------------------------------------------- output and write paths

  /**
   * The output rules: an extension other than .mp4/.avi/.mkv (in any case)
   * becomes .mp4; a lossless merge that would not end in .avi goes to
   * `<stem>_lossless.avi`.
   */
  function OutputPath(output: string, lossless: bool): string {
    var p := ContainerPath(output);
    if lossless && !EndsWith(Lower(p), ".avi") then SplitExt(p).0 + "_lossless.avi" else p
  }

  /** The first rule alone. */
  function ContainerPath(output: string): string {
    var ext := Lower(SplitExt(output).1);
    if ext != ".mp4" && ext != ".avi" && ext != ".mkv" then SplitExt(output).0 + ".mp4" else output
  }

  /** The first rule: the path after it ends, in lower case, with one of the three extensions. */
  lemma ContainerRule(output: string)
    ensures var p := ContainerPath(output);
      EndsWith(Lower(p), ".mp4") || EndsWith(Lower(p), ".avi") || EndsWith(Lower(p), ".mkv")
  {
    var (stem, ext) := SplitExt(output);
    if Lower(ext) != ".mp4" && Lower(ext) != ".avi" && Lower(ext) != ".mkv" {
      assert Lower(".mp4") == ".mp4";
      LowerSuffix(stem, ".mp4", ".mp4");
    } else {
      assert EndsWith(Lower(ext), Lower(ext));
      LowerSuffix(stem, ext, Lower(ext));
    }
  }

  /** The second rule: a lossless path not ending in .avi gets `_lossless.avi`. */
  lemma LosslessRule(stem: string)
    ensures EndsWith(Lower(stem + "_lossless.avi"), ".avi")
  {
    assert stem + "_lossless.avi" == (stem + "_lossless") + ".avi";
    assert Lower(".avi") == ".avi";
    LowerSuffix(stem + "_lossless", ".avi", ".avi");
  }

  /** The merge always ends in one of the three containers, and in .avi when lossless; an accepted path is kept. */
  lemma OutputExtension(output: string, lossless: bool)
    ensures var r := OutputPath(output, lossless);
      && (EndsWith(Lower(r), ".mp4") || EndsWith(Lower(r), ".avi") || EndsWith(Lower(r), ".mkv"))
      && (lossless ==> EndsWith(Lower(r), ".avi"))
    ensures !lossless && Lower(SplitExt(output).1) in {".mp4", ".avi", ".mkv"} ==> OutputPath(output, lossless) == output
  {
    ContainerRule(output);
    LosslessRule(SplitExt(ContainerPath(output)).0);
  }

  /** Frames are written to a video-only file in the temporary directory iff audio is to be added and the merge is lossy. */
  function WritePath(addAudio: bool, lossless: bool, tempDir: string, out: string): (r: string)
    ensures addAudio && !lossless ==> Basename(r) == VideoOnlyName
    ensures !(addAudio && !lossless) ==> r == out
  {
    if addAudio && !lossless then
      BasenameOfJoin(tempDir, VideoOnlyName);
      PathJoin(tempDir, VideoOnlyName)
    else out
  }

  // ------------------------------------------------------- _mux_audio_with_ffmpeg

  function AudioCommand(ffmpegBin: string, listPath: string, bitrate: string, m4a: string): seq<string> {
    [ffmpegBin, "-y", "-f", "concat", "-safe", "0", "-i", listPath, "-vn", "-c:a", "aac", "-b:a", bitrate, m4a]
  }

  function MuxCommand(ffmpegBin: string, videoOnly: string, m4a: string, out: string): seq<string> {
    [ffmpegBin, "-y", "-i", videoOnly, "-i", m4a, "-c:v", "copy", "-c:a", "copy", "-shortest", out]
  }

  /** The audio list written, the commands started, the output path or None, and what a call raised. */
  datatype MuxRun = MuxRun(listPath: string, listContent: string, commands: seq<seq<string>>, result: Option<string>,
                           raised: Option<Raised>)

  /**
   * `_mux_audio_with_ffmpeg`: the audio list and the intermediate .m4a sit
   * beside the video-only file; the audio is concatenated first and the mux
   * runs only when that succeeds. A call that raises (ffmpeg not found) ends
   * the function with that exception.
   */
  function Mux(videoOnly: string, localPaths: seq<string>, out: string, bitrate: string, ffmpegBin: string,
               run: seq<string> -> ProcResult): (r: MuxRun)
    ensures r.listPath == PathJoin(Dirname(videoOnly), AudioListName) && r.listContent == Render(localPaths)
    ensures r.result.Some? ==> r.result.value == out
    ensures r.result.Some? <==> |r.commands| == 2 && Exited0(run(r.commands[0])) && Exited0(run(r.commands[1]))
    ensures 1 <= |r.commands| <= 2
    ensures r.commands[0] == AudioCommand(ffmpegBin, r.listPath, bitrate, PathJoin(Dirname(videoOnly), AudioName))
    ensures |r.commands| == 2 ==> r.commands[1] == MuxCommand(ffmpegBin, videoOnly, PathJoin(Dirname(videoOnly), AudioName), out)
    ensures |r.commands| == 2 <==> Exited0(run(r.commands[0]))
    ensures r.raised.Some? <==> run(r.commands[|r.commands| - 1]).RunRaised?
    ensures r.raised.Some? ==> r.raised.value == run(r.commands[|r.commands| - 1]).error
  {
    var dir := Dirname(videoOnly);
    var listPath := PathJoin(dir, AudioListName);
    var m4a := PathJoin(dir, AudioName);
    var content := Render(localPaths);
    var audio := AudioCommand(ffmpegBin, listPath, bitrate, m4a);
    if run(audio).RunRaised? then MuxRun(listPath, content, [audio], None, Some(run(audio).error))
    else if run(audio).returncode != 0 then MuxRun(listPath, content, [audio], None, None)
    else
      var mux := MuxCommand(ffmpegBin, videoOnly, m4a, out);
      if run(mux).RunRaised? then MuxRun(listPath, content, [audio, mux], None, Some(run(mux).error))
      else if run(mux).returncode != 0 then MuxRun(listPath, content, [audio, mux], None, None)
      else MuxRun(listPath, content, [audio, mux], Some(out), None)
  }

  /** The function as the script runs it: the list lines are appended one per path. */
  method MuxAudioWithFfmpeg(videoOnly: string, localPaths: seq<string>, out: string, bitrate: string, ffmpegBin: string,
                            run: seq<string> -> ProcResult) returns (m: MuxRun)
    ensures m == Mux(videoOnly, localPaths, out, bitrate, ffmpegBin, run)
  {
    var dir := Dirname(videoOnly);
    var listPath := PathJoin(dir, AudioListName);
    var m4a := PathJoin(dir, AudioName);
    var content := WriteList(localPaths);
    var audio := AudioCommand(ffmpegBin, listPath, bitrate, m4a);
    var ret := run(audio);
    if ret.RunRaised? {
      return MuxRun(listPath, content, [audio], None, Some(ret.error));
    }
    if ret.returncode != 0 {
      return MuxRun(listPath, content, [audio], None, None);
    }
    var mux := MuxCommand(ffmpegBin, videoOnly, m4a, out);
    ret := run(mux);
    if ret.RunRaised? {
      return MuxRun(listPath, content, [audio, mux], None, Some(ret.error));
    }
    if ret.returncode != 0 {
      return MuxRun(listPath, content, [audio, mux], None, None);
    }
    m := MuxRun(listPath, content, [audio, mux], Some(out), None);
  }

  /**
   * The audio list names the segments in the order the frames were written,
   * and sits in the temporary directory next to the video-only file.
   */
  lemma AudioListFollowsSegments(tempDir: string, localPaths: seq<string>, out: string, bitrate: string, ffmpegBin: string,
                                 run: seq<string> -> ProcResult)
    requires tempDir != "" && tempDir[|tempDir| - 1] != '/'
    requires forall i :: 0 <= i < |localPaths| ==> localPaths[i] != "" && NoBreak(FileLines, localPaths[i]) && '\'' !in localPaths[i]
    ensures var m := Mux(PathJoin(tempDir, VideoOnlyName), localPaths, out, bitrate, ffmpegBin, run);
      && FileListPaths(m.listContent) == localPaths
      && m.listPath == PathJoin(tempDir, AudioListName)
  {
    assert '/' !in VideoOnlyName by {
      assert forall k :: 0 <= k < |VideoOnlyName| ==> VideoOnlyName[k] != '/';
    }
    DirnameOfJoin(tempDir, VideoOnlyName);
    RenderRoundTripPlain(FileLines, localPaths);
  }

  // ------------------------------------------------------- merge_mp4_cv2

  /** What OpenCV and ffmpeg do with a path: can it be read, can a writer be opened on it, how a command exits. */
  datatype Media = Media(opens: string -> bool, writerOpens: string -> bool, run: seq<string> -> ProcResult)

  /** The first path OpenCV cannot open, if any. */
  function FirstUnopened(paths: seq<string>, opens: string -> bool): (r: Option<string>)
    ensures r.None? <==> forall k :: 0 <= k < |paths| ==> opens(paths[k])
    ensures r.Some? ==> r.value in paths && !opens(r.value)
  {
    if paths == [] then None
    else if !opens(paths[0]) then Some(paths[0])
    else FirstUnopened(paths[1..], opens)
  }

  /** The temporary directory removed at the end (only one this call made), the audio mux if it ran, and the outcome. */
  datatype Cv2Run = Cv2Run(removed: Option<string>, mux: Option<MuxRun>, result: Result<string, Raised>)

  /** The body of the `try`: resolve, probe the first video, pick the paths, write the frames, mux. */
  function MergeBody(paths: seq<string>, tempDir: string, output: string, lossless: bool, verifySsl: bool,
                     addAudio: bool, bitrate: string, ffmpegBin: string, cwd: string, env: Env, media: Media)
    : (r: (Option<MuxRun>, Result<string, Raised>))
    requires |paths| >= 1 && StartsWith(cwd, "/")
    ensures r.1.Ok? ==> r.1.value == AbsPath(cwd, OutputPath(output, lossless))
    ensures r.0.Some? ==> addAudio && !lossless
    ensures r.0.Some? ==> (r.1.Ok? <==> r.0.value.raised.None?)
    ensures r.0.Some? && r.0.value.raised.Some? ==> r.1 == Err(r.0.value.raised.value)
  {
    match Resolved(paths, tempDir, verifySsl, env)
    case Err(e) => (None, Err(e))
    case Ok(local) =>
      if !media.opens(local[0]) then (None, Err(Raised("RuntimeError", CannotOpenPrefix + local[0])))
      else
        var out := OutputPath(output, lossless);
        var write := WritePath(addAudio, lossless, tempDir, out);
        if !media.writerOpens(write) then (None, Err(Raised("RuntimeError", CannotCreatePrefix + write)))
        else match FirstUnopened(local, media.opens)
          case Some(p) => (None, Err(Raised("RuntimeError", CannotOpenPrefix + p)))
          case None =>
            if addAudio && !lossless && write != out then
              // `abspath(muxed)` and `abspath(output_path)` after the copy are the same path
              var m := Mux(write, local, out, bitrate, ffmpegBin, media.run);
              (Some(m), if m.raised.Some? then Err(m.raised.value) else Ok(AbsPath(cwd, out)))
            else (None, Ok(AbsPath(cwd, out)))
  }

  /**
   * `merge_mp4_cv2`. `file` is the list's content (None when it is no file),
   * `tempDir` the caller's directory and `freshTemp` the one `mkdtemp` would
   * make.
   */
  function MergeMp4Cv2(listPath: string, file: Option<string>, output: string, lossless: bool,
                       tempDir: Option<string>, freshTemp: string, verifySsl: bool, addAudio: bool,
                       bitrate: string, ffmpegBin: string, cwd: string, env: Env, media: Media): (r: Cv2Run)
    requires StartsWith(cwd, "/")
    ensures file.None? ==> r == Cv2Run(None, None, Err(Raised("FileNotFoundError", MissingListPrefix + listPath)))
    ensures file.Some? && FileListPaths(file.value) == [] ==> r == Cv2Run(None, None, Err(Raised("ValueError", EmptyListMsg)))
    ensures r.removed.Some? <==> tempDir.None? && file.Some? && FileListPaths(file.value) != []
    ensures r.removed.Some? ==> r.removed.value == freshTemp
    ensures r.result.Ok? ==> r.result.value == AbsPath(cwd, OutputPath(output, lossless))
    ensures r.mux.Some? ==> addAudio && !lossless
    ensures r.mux.Some? && r.mux.value.raised.Some? ==> r.result == Err(r.mux.value.raised.value)
  {
    if file.None? then Cv2Run(None, None, Err(Raised("FileNotFoundError", MissingListPrefix + listPath)))
    else
      var paths := FileListPaths(file.value);
      if paths == [] then Cv2Run(None, None, Err(Raised("ValueError", EmptyListMsg)))
      else
        var dir := if tempDir.Some? then tempDir.value else freshTemp;
        var body := MergeBody(paths, dir, output, lossless, verifySsl, addAudio, bitrate, ffmpegBin, cwd, env, media);
        Cv2Run(if tempDir.None? then Some(freshTemp) else None, body.0, body.1)
  }

  /**
   * Lossy merges with audio mux whenever every segment opens, so the audio of
   * a successful merge is always attempted (unless the output is the
   * video-only file itself).
   */
  lemma LossyMergeMuxes(paths: seq<string>, tempDir: string, output: string, verifySsl: bool,
                        bitrate: string, ffmpegBin: string, cwd: string, env: Env, media: Media)
    requires |paths| >= 1 && StartsWith(cwd, "/")
    requires Resolved(paths, tempDir, verifySsl, env).Ok?
    requires forall k :: 0 <= k < |paths| ==> media.opens(Resolved(paths, tempDir, verifySsl, env).value[k])
    requires media.writerOpens(PathJoin(tempDir, VideoOnlyName))
    requires OutputPath(output, false) != PathJoin(tempDir, VideoOnlyName)
    ensures var r := MergeBody(paths, tempDir, output, false, verifySsl, true, bitrate, ffmpegBin, cwd, env, media);
      r.0.Some? && (r.1 == Ok(AbsPath(cwd, OutputPath(output, false))) <==> r.0.value.raised.None?)
  {
    var local := Resolved(paths, tempDir, verifySsl, env).value;
    assert media.opens(local[0]);
    assert FirstUnopened(local, media.opens).None?;
  }

  /** `main`: the literal default output is moved into the script's tmp directory. */
  function MainOutput(arg: string, tmpDir: string): (r: string)
    ensures arg == DefaultOutput ==> r == PathJoin(tmpDir, DefaultOutput) && Basename(r) == DefaultOutput
    ensures arg != DefaultOutput ==> r == arg
  {
    if arg == DefaultOutput then
      BasenameOfJoin(tmpDir, DefaultOutput);
      PathJoin(tmpDir, DefaultOutput)
    else arg
  }

  /** `main`: certificates are checked unless `--no-verify-ssl` is given or `INSECURE_SSL` is 1, true or yes. */
  function VerifySsl(noVerifySsl: bool, insecureSsl: Option<string>): (r: bool)
    ensures r <==> !noVerifySsl && !(insecureSsl.Some? && insecureSsl.value in {"1", "true", "yes"})
  {
    var verify := !noVerifySsl;
    if insecureSsl == Some("1") || insecureSsl == Some("true") || insecureSsl == Some("yes") then false else verify
  }
}
