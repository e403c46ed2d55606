/**
 * `merge_mp4_moviepy.py`: fetch the entries of a list, concatenate them with
 * MoviePy and re-encode the result at a lower bitrate. The clip work is
 * outside this model; the list check, the paths and the temporary directory's
 * life are in it.
 */
module MergeMoviepy {
  import opened Base
  import opened Text
  import opened PathOps
  import opened ConcatList
  import opened ConcatMerge
  import MergeCv2

  const MissingLocalPrefix := "本地文件不存在: "
  const EmptyListMsg := "列表文件为空或格式错误。每行应为: file 'path' 或 file 'http://...'"
  const DefaultOutput := "merged.mp4"

  /** What the environment answers about one entry: is it a file, does its single download raise, its `hash()`. */
  datatype Env = Env(isFile: string -> bool, download: string -> Option<Raised>, hash: string -> int)

  /** `resolve_path`: a URL is downloaded once into the temporary directory; a local path must be a file and is returned unchanged. */
  function ResolvePath(item: string, tempDir: string, env: Env): (r: Result<string, Raised>)
    ensures IsUrl(item) ==> (r.Ok? <==> env.download(item).None?)
    ensures IsUrl(item) && r.Ok? ==> r.value == PathJoin(tempDir, MergeCv2.UrlName(item, env.hash(item)))
    ensures !IsUrl(item) ==> (r.Ok? <==> env.isFile(item)) && (r.Ok? ==> r.value == item)
    ensures !IsUrl(item) && r.Err? ==> r.error == Raised("FileNotFoundError", MissingLocalPrefix + item)
  {
    if IsUrl(item) then
      var local := PathJoin(tempDir, MergeCv2.UrlName(item, env.hash(item)));
      match env.download(item)
      case Some(e) => Err(e)
      case None => Ok(local)
    else if !env.isFile(item) then Err(Raised("FileNotFoundError", MissingLocalPrefix + item))
    else Ok(item)
  }

  /** A downloaded entry keeps the last segment of its URL path as its file name. */
  lemma UrlNameKept(item: string, tempDir: string, env: Env)
    requires IsUrl(item) && ResolvePath(item, tempDir, env).Ok?
    ensures Basename(ResolvePath(item, tempDir, env).value) == MergeCv2.UrlName(item, env.hash(item))
  {
    BasenameOfJoin(tempDir, MergeCv2.UrlName(item, env.hash(item)));
  }

  /** The list resolved in order, stopping at the first entry that raises. */
  function Resolved(paths: seq<string>, tempDir: string, env: Env): (r: Result<seq<string>, Raised>)
    ensures r.Ok? ==> |r.value| == |paths|
  {
    if paths == [] then Ok([])
    else
      match Resolved(paths[..|paths| - 1], tempDir, env)
      case Err(e) => Err(e)
      case Ok(ls) =>
        match ResolvePath(paths[|paths| - 1], tempDir, env)
        case Err(e) => Err(e)
        case Ok(l) => Ok(ls + [l])
  }

  /** A list of existing local files resolves to itself. */
  lemma {:induction false} LocalFilesResolveToThemselves(paths: seq<string>, tempDir: string, env: Env)
    requires forall k :: 0 <= k < |paths| ==> !IsUrl(paths[k]) && env.isFile(paths[k])
    ensures Resolved(paths, tempDir, env) == Ok(paths)
  {
    if paths != [] {
      LocalFilesResolveToThemselves(paths[..|paths| - 1], tempDir, env);
      assert paths[..|paths| - 1] + [paths[|paths| - 1]] == paths;
    }
  }

  /** Each resolved path is what `resolve_path` gives its entry, in order. */
  lemma {:induction false} ResolvedEntry(paths: seq<string>, tempDir: string, env: Env, k: nat)
    requires Resolved(paths, tempDir, env).Ok? && k < |paths|
    ensures ResolvePath(paths[k], tempDir, env) == Ok(Resolved(paths, tempDir, env).value[k])
  {
    var front := paths[..|paths| - 1];
    if k < |paths| - 1 {
      ResolvedEntry(front, tempDir, env, k);
      assert front[k] == paths[k];
    }
  }

  /** Once a prefix fails, the whole list fails with the same exception. */
  lemma {:induction false} PrefixErr(paths: seq<string>, n: nat, tempDir: string, env: Env)
    requires n <= |paths| && Resolved(paths[..n], tempDir, env).Err?
    ensures Resolved(paths, tempDir, env) == Resolved(paths[..n], tempDir, env)
    decreases |paths| - n
  {
    if n < |paths| {
      assert paths[..n + 1][..n] == paths[..n];
      PrefixErr(paths, n + 1, tempDir, env);
    } else {
      assert paths[..n] == paths;
    }
  }

  /** The loop filling `local_paths`. */
  method ResolveAll(paths: seq<string>, tempDir: string, env: Env) returns (r: Result<seq<string>, Raised>)
    ensures r == Resolved(paths, tempDir, env)
  {
    var local: seq<string> := [];
    for i := 0 to |paths|
      invariant Resolved(paths[..i], tempDir, env) == Ok(local)
    {
      assert paths[..i + 1][..i] == paths[..i];
      var p := ResolvePath(paths[i], tempDir, env);
      if p.Err? {
        PrefixErr(paths, i + 1, tempDir, env);
        return Err(p.error);
      }
      local := local + [p.value];
    }
    assert paths[..|paths|] == paths;
    r := Ok(local);
  }

  // ------------------------------------------------------- merge_mp4_from_list

  /** What MoviePy does: the exception opening a clip raises, if any, and the one writing the result raises. */
  datatype Media = Media(clipError: string -> Option<Raised>, writeError: Option<Raised>)

  /** The exception of the first clip that does not open. */
  function FirstClipError(paths: seq<string>, clipError: string -> Option<Raised>): (r: Option<Raised>)
    ensures r.None? <==> forall k :: 0 <= k < |paths| ==> clipError(paths[k]).None?
    ensures r.Some? ==> exists k :: 0 <= k < |paths| && clipError(paths[k]) == r
  {
    if paths == [] then None
    else if clipError(paths[0]).Some? then clipError(paths[0])
    else
      var rest := FirstClipError(paths[1..], clipError);
      assert forall k :: 1 <= k < |paths| ==> paths[k] == paths[1..][k - 1];
      rest
  }

  /** The loop opening the clips. */
  method OpenClips(local: seq<string>, clipError: string -> Option<Raised>) returns (err: Option<Raised>)
    ensures err == FirstClipError(local, clipError)
  {
    for i := 0 to |local|
      invariant FirstClipError(local, clipError) == FirstClipError(local[i..], clipError)
    {
      assert local[i..][1..] == local[i + 1..];
      if clipError(local[i]).Some? {
        return clipError(local[i]);
      }
    }
    return None;
  }

  /** The temporary directory removed at the end (only one this call made) and the outcome. */
  datatype MoviepyRun = MoviepyRun(removed: Option<string>, result: Result<string, Raised>)

  /** The body of the `try`. */
  function MergeBody(paths: seq<string>, tempDir: string, output: string, cwd: string, env: Env, media: Media): (r: Result<string, Raised>)
    requires StartsWith(cwd, "/")
    ensures r.Ok? <==> Resolved(paths, tempDir, env).Ok?
                       && FirstClipError(Resolved(paths, tempDir, env).value, media.clipError).None?
                       && media.writeError.None?
    ensures r.Ok? ==> r.value == AbsPath(cwd, output)
  {
    match Resolved(paths, tempDir, env)
    case Err(e) => Err(e)
    case Ok(local) =>
      match FirstClipError(local, media.clipError)
      case Some(e) => Err(e)
      case None =>
        match media.writeError
        case Some(e) => Err(e)
        case None => Ok(AbsPath(cwd, output))
  }

  /**
   * `merge_mp4_from_list`. `file` is the list's content (None when it is no
   * file), `tempDir` the caller's directory and `freshTemp` the one `mkdtemp`
   * would make.
   */
  function MergeMp4FromList(listPath: string, file: Option<string>, output: string, tempDir: Option<string>,
                            freshTemp: string, cwd: string, env: Env, media: Media): (r: MoviepyRun)
    requires StartsWith(cwd, "/")
    ensures file.None? ==> r == MoviepyRun(None, Err(Raised("FileNotFoundError", MissingListPrefix + listPath)))
    ensures file.Some? && FileListPaths(file.value) == [] ==> r == MoviepyRun(None, Err(Raised("ValueError", EmptyListMsg)))
    ensures r.removed.Some? <==> tempDir.None? && file.Some? && FileListPaths(file.value) != []
    ensures r.removed.Some? ==> r.removed.value == freshTemp
    ensures r.result.Ok? ==> r.result.value == AbsPath(cwd, output)
  {
    if file.None? then MoviepyRun(None, Err(Raised("FileNotFoundError", MissingListPrefix + listPath)))
    else
      var paths := FileListPaths(file.value);
      if paths == [] then MoviepyRun(None, Err(Raised("ValueError", EmptyListMsg)))
      else
        var dir := if tempDir.Some? then tempDir.value else freshTemp;
        MoviepyRun(if tempDir.None? then Some(freshTemp) else None, MergeBody(paths, dir, output, cwd, env, media))
  }

  /** The function as the script runs it: parse, check, pick the directory, resolve, open the clips, write. */
  method MergeFromList(listPath: string, file: Option<string>, output: string, tempDir: Option<string>,
                       freshTemp: string, cwd: string, env: Env, media: Media) returns (r: MoviepyRun)
    requires StartsWith(cwd, "/")
    ensures r == MergeMp4FromList(listPath, file, output, tempDir, freshTemp, cwd, env, media)
  {
    if file.None? {
      return MoviepyRun(None, Err(Raised("FileNotFoundError", MissingListPrefix + listPath)));
    }
    var paths := ParseFile(file.value);
    if paths == [] {
      return MoviepyRun(None, Err(Raised("ValueError", EmptyListMsg)));
    }
    var createdTemp := tempDir.None?;
    var dir := if tempDir.Some? then tempDir.value else freshTemp;
    var removed := if createdTemp then Some(dir) else None;
    var local := ResolveAll(paths, dir, env);
    if local.Err? {
      return MoviepyRun(removed, Err(local.error));
    }
    var clipErr := OpenClips(local.value, media.clipError);
    if clipErr.Some? {
      return MoviepyRun(removed, Err(clipErr.value));
    }
    if media.writeError.Some? {
      return MoviepyRun(removed, Err(media.writeError.value));
    }
    r := MoviepyRun(removed, Ok(AbsPath(cwd, output)));
  }

  /** A directory the caller passed in is never removed. */
  lemma CallerDirectoryKept(listPath: string, file: Option<string>, output: string, dir: string,
                            freshTemp: string, cwd: string, env: Env, media: Media)
    requires StartsWith(cwd, "/")
    ensures MergeMp4FromList(listPath, file, output, Some(dir), freshTemp, cwd, env, media).removed.None?
  {
  }

  /** `main`: the literal default output is moved into the script's tmp directory. */
  function MainOutput(arg: string, tmpDir: string): (r: string)
    ensures arg == DefaultOutput ==> r == PathJoin(tmpDir, DefaultOutput) && Basename(r) == DefaultOutput
    ensures arg != DefaultOutput ==> r == arg
  {
    if arg == DefaultOutput then
      BasenameOfJoin(tmpDir, DefaultOutput);
      PathJoin(tmpDir, DefaultOutput)
    else arg
  }
}
