/**
 * `test_playwright_push_videos.py`: read the list, make every entry a local
 * file (downloading URLs), publish each with the browser upload, and exit 1
 * when some attempted upload did not pass.
 */
module BatchPush {
  import opened Base
  import opened Text
  import opened PathOps
  import opened ConcatList
  import BrowserUpload
  import opened MergeFfmpeg2

  const FallbackName := "video.mp4"

  /** What the file system and the network answer: is a path a file, does downloading an entry raise. */
  datatype Env = Env(isFile: string -> bool, download: string -> Option<Raised>)

  /** The file name a URL is saved under: the last segment before `?`, or "video.mp4", ending in `.mp4` in some case. */
  function DownloadName(entry: string): (r: string)
    ensures r != "" && '/' !in r && EndsWith(Lower(r), ".mp4")
  {
    var b := Basename(Split(entry, '?')[0]);
    var name := if b != "" then b else FallbackName;
    assert forall k :: 0 <= k < |FallbackName| ==> FallbackName[k] != '/';
    NoSlashWithMp4(name);
    WithMp4(name)
  }

  /** Appending `.mp4` adds no slash. */
  lemma NoSlashWithMp4(name: string)
    requires '/' !in name
    ensures '/' !in WithMp4(name)
  {
    assert forall k :: 0 <= k < |".mp4"| ==> ".mp4"[k] != '/';
  }

  /**
   * `_ensure_local_path` as written: a failed download raises out of it (and
   * out of `main`), although the caller's skip message names a failed download
   * as a reason to skip.
   */
  function EnsureLocalPathAsWritten(entry: string, tmpVideosDir: string, cwd: string, env: Env): (r: Result<Option<string>, Raised>)
    requires StartsWith(cwd, "/")
    ensures r.Err? ==> IsUrl(entry) && env.download(entry) == Some(r.error)
  {
    if entry == "" then Ok(None)
    else if IsUrl(entry) then
      var save := PathJoin(tmpVideosDir, DownloadName(entry));
      if env.isFile(save) then Ok(Some(AbsPath(cwd, save)))
      else match env.download(entry)
        case Some(e) => Err(e)
        case None => Ok(Some(AbsPath(cwd, save)))
    else
      var path := AbsPath(cwd, entry);
      if env.isFile(path) then Ok(Some(path)) else Ok(None)
  }

  /**
   * `_ensure_local_path` as the caller expects it: None for an empty entry,
   * a missing local file or a failed download. A URL is fetched only when
   * its file is not already there.
   */
  function EnsureLocalPath(entry: string, tmpVideosDir: string, cwd: string, env: Env): (r: Option<string>)
    requires StartsWith(cwd, "/")
    ensures entry == "" ==> r.None?
    ensures entry != "" && !IsUrl(entry) ==>
              r == (if env.isFile(AbsPath(cwd, entry)) then Some(AbsPath(cwd, entry)) else None)
    ensures IsUrl(entry) && r.Some? ==> r.value == AbsPath(cwd, PathJoin(tmpVideosDir, DownloadName(entry)))
    ensures IsUrl(entry) ==> (r.None? <==> !env.isFile(PathJoin(tmpVideosDir, DownloadName(entry))) && env.download(entry).Some?)
  {
    if entry == "" then
      assert !StartsWith(entry, "http://") && !StartsWith(entry, "https://");
      None
    else if IsUrl(entry) then FetchedPath(entry, tmpVideosDir, cwd, env)
    else
      var path := AbsPath(cwd, entry);
      if env.isFile(path) then Some(path) else None
  }

  /** A URL's local file: there already, or downloaded without an exception. */
  function FetchedPath(entry: string, tmpVideosDir: string, cwd: string, env: Env): (r: Option<string>)
    requires StartsWith(cwd, "/")
    ensures r.Some? ==> r.value == AbsPath(cwd, PathJoin(tmpVideosDir, DownloadName(entry)))
    ensures r.None? <==> !env.isFile(PathJoin(tmpVideosDir, DownloadName(entry))) && env.download(entry).Some?
  {
    var save := PathJoin(tmpVideosDir, DownloadName(entry));
    if env.isFile(save) || env.download(entry).None? then Some(AbsPath(cwd, save)) else None
  }

  /**
   * Where the two differ: a URL whose file is not there yet and whose download
   * fails raises as written, and is skipped as intended.
   */
  lemma FailedDownloadRaises(entry: string, tmpVideosDir: string, cwd: string, env: Env)
    requires StartsWith(cwd, "/") && IsUrl(entry)
    requires env.download(entry).Some?
    requires !env.isFile(PathJoin(tmpVideosDir, DownloadName(entry)))
    ensures EnsureLocalPathAsWritten(entry, tmpVideosDir, cwd, env) == Err(env.download(entry).value)
    ensures EnsureLocalPath(entry, tmpVideosDir, cwd, env).None?
  {
    assert entry[..7] == "http://" || entry[..8] == "https://";
  }

  /** Elsewhere the intended function agrees with the code. */
  lemma AgreesUnlessDownloadFails(entry: string, tmpVideosDir: string, cwd: string, env: Env)
    requires StartsWith(cwd, "/")
    requires EnsureLocalPathAsWritten(entry, tmpVideosDir, cwd, env).Ok?
    ensures EnsureLocalPath(entry, tmpVideosDir, cwd, env) == EnsureLocalPathAsWritten(entry, tmpVideosDir, cwd, env).value
  {
  }

  // ------------------------------------------------------- main

  /** One entry's line in `results`: skipped (None) or published with the stem of its local file as the title. */
  function ResultOf(entry: string, tmpVideosDir: string, cwd: string, env: Env,
                    publish: (string, string) -> BrowserUpload.UploadResult): (r: (string, Option<BrowserUpload.UploadResult>))
    requires StartsWith(cwd, "/")
    ensures r.0 == entry
    ensures r.1.None? <==> EnsureLocalPath(entry, tmpVideosDir, cwd, env).None?
    ensures r.1.Some? ==>
              var local := EnsureLocalPath(entry, tmpVideosDir, cwd, env).value;
              r.1.value == publish(local, SplitExt(Basename(local)).0)
  {
    match EnsureLocalPath(entry, tmpVideosDir, cwd, env)
    case None => (entry, None)
    case Some(local) => (entry, Some(publish(local, SplitExt(Basename(local)).0)))
  }

  /** One entry's line as written: a failed download raises out of the loop instead of giving a line. */
  function ResultOfAsWritten(entry: string, tmpVideosDir: string, cwd: string, env: Env,
                             publish: (string, string) -> BrowserUpload.UploadResult): (r: Result<(string, Option<BrowserUpload.UploadResult>), Raised>)
    requires StartsWith(cwd, "/")
    ensures r.Err? <==> EnsureLocalPathAsWritten(entry, tmpVideosDir, cwd, env).Err?
    ensures r.Err? ==> r.error == EnsureLocalPathAsWritten(entry, tmpVideosDir, cwd, env).error
    ensures r.Ok? ==> r.value == ResultOf(entry, tmpVideosDir, cwd, env, publish)
  {
    match EnsureLocalPathAsWritten(entry, tmpVideosDir, cwd, env)
    case Err(e) => Err(e)
    case Ok(local) =>
      AgreesUnlessDownloadFails(entry, tmpVideosDir, cwd, env);
      if local.None? then Ok((entry, None))
      else Ok((entry, Some(publish(local.value, SplitExt(Basename(local.value)).0))))
  }

  /** A loop over `entries` that appends one line per entry, in order. */
  function Lines<T>(entries: seq<string>, line: string -> T): (r: seq<T>)
    ensures |r| == |entries|
  {
    if entries == [] then []
    else Lines(entries[..|entries| - 1], line) + [line(entries[|entries| - 1])]
  }

  /** Each entry's line sits at the entry's index. */
  lemma {:induction false} LinesAt<T>(entries: seq<string>, line: string -> T, k: nat)
    requires k < |entries|
    ensures Lines(entries, line)[k] == line(entries[k])
  {
    var front := entries[..|entries| - 1];
    if k < |front| {
      LinesAt(front, line, k);
      assert front[k] == entries[k];
    }
  }

  /** `results` after the loop over `entries`. */
  function Results(entries: seq<string>, tmpVideosDir: string, cwd: string, env: Env,
                   publish: (string, string) -> BrowserUpload.UploadResult): (r: seq<(string, Option<BrowserUpload.UploadResult>)>)
    requires StartsWith(cwd, "/")
    ensures |r| == |entries|
  {
    Lines(entries, (entry: string) => ResultOf(entry, tmpVideosDir, cwd, env, publish))
  }

  /** Every entry adds exactly one line, in list order. */
  lemma ResultsAt(entries: seq<string>, tmpVideosDir: string, cwd: string, env: Env,
                  publish: (string, string) -> BrowserUpload.UploadResult, k: nat)
    requires StartsWith(cwd, "/") && k < |entries|
    ensures Results(entries, tmpVideosDir, cwd, env, publish)[k] == ResultOf(entries[k], tmpVideosDir, cwd, env, publish)
  {
    LinesAt(entries, (entry: string) => ResultOf(entry, tmpVideosDir, cwd, env, publish), k);
  }

  /** A loop over `entries` that stops at the first entry whose `line` raises; otherwise every line, in order. */
  function Collect<T>(entries: seq<string>, line: string -> Result<T, Raised>): Result<seq<T>, Raised> {
    if entries == [] then Ok([])
    else match Collect(entries[..|entries| - 1], line)
      case Err(e) => Err(e)
      case Ok(front) =>
        match line(entries[|entries| - 1])
        case Err(e) => Err(e)
        case Ok(last) => Ok(front + [last])
  }

  /** The loop raises iff some entry's line raises, and otherwise holds each entry's line at its index. */
  lemma {:induction false} CollectIff<T>(entries: seq<string>, line: string -> Result<T, Raised>)
    ensures Collect(entries, line).Err? <==> exists k :: 0 <= k < |entries| && line(entries[k]).Err?
    ensures Collect(entries, line).Ok? ==>
              |Collect(entries, line).value| == |entries| &&
              forall k :: 0 <= k < |entries| ==> Collect(entries, line).value[k] == line(entries[k]).value
  {
    if entries != [] {
      var front := entries[..|entries| - 1];
      CollectIff(front, line);
      if exists k :: 0 <= k < |front| && line(front[k]).Err? {
        var k :| 0 <= k < |front| && line(front[k]).Err?;
        assert entries[k] == front[k];
      }
      if exists k :: 0 <= k < |entries| && line(entries[k]).Err? {
        var k :| 0 <= k < |entries| && line(entries[k]).Err?;
        if k < |front| {
          assert front[k] == entries[k];
        }
      }
      if Collect(entries, line).Ok? {
        forall k | 0 <= k < |entries|
          ensures Collect(entries, line).value[k] == line(entries[k]).value
        {
          if k < |front| {
            assert front[k] == entries[k];
          }
        }
      }
    }
  }

  /** The loop as written: it stops at the first entry whose download raises. */
  function ResultsAsWritten(entries: seq<string>, tmpVideosDir: string, cwd: string, env: Env,
                            publish: (string, string) -> BrowserUpload.UploadResult): Result<seq<(string, Option<BrowserUpload.UploadResult>)>, Raised>
    requires StartsWith(cwd, "/")
  {
    Collect(entries, (entry: string) => ResultOfAsWritten(entry, tmpVideosDir, cwd, env, publish))
  }

  /**
   * The loop as written raises iff some entry's download raises, and
   * otherwise gives the intended lines.
   */
  lemma AsWrittenRaisesIff(entries: seq<string>, tmpVideosDir: string, cwd: string, env: Env,
                           publish: (string, string) -> BrowserUpload.UploadResult)
    requires StartsWith(cwd, "/")
    ensures ResultsAsWritten(entries, tmpVideosDir, cwd, env, publish).Err? <==>
              exists k :: 0 <= k < |entries| && EnsureLocalPathAsWritten(entries[k], tmpVideosDir, cwd, env).Err?
    ensures ResultsAsWritten(entries, tmpVideosDir, cwd, env, publish).Ok? ==>
              ResultsAsWritten(entries, tmpVideosDir, cwd, env, publish).value == Results(entries, tmpVideosDir, cwd, env, publish)
  {
    var line := (entry: string) => ResultOfAsWritten(entry, tmpVideosDir, cwd, env, publish);
    CollectIff(entries, line);
    var all := Collect(entries, line);
    if all.Ok? {
      var rs := Results(entries, tmpVideosDir, cwd, env, publish);
      forall k | 0 <= k < |entries|
        ensures all.value[k] == rs[k]
      {
        ResultsAt(entries, tmpVideosDir, cwd, env, publish, k);
      }
    }
  }

  /** The loop of `main`. */
  method PublishAll(entries: seq<string>, tmpVideosDir: string, cwd: string, env: Env,
                    publish: (string, string) -> BrowserUpload.UploadResult) returns (results: seq<(string, Option<BrowserUpload.UploadResult>)>)
    requires StartsWith(cwd, "/")
    ensures results == Results(entries, tmpVideosDir, cwd, env, publish)
  {
    results := [];
    for i := 0 to |entries|
      invariant results == Results(entries[..i], tmpVideosDir, cwd, env, publish)
    {
      assert entries[..i + 1][..i] == entries[..i];
      var entry := entries[i];
      var local := EnsureLocalPath(entry, tmpVideosDir, cwd, env);
      if local.None? {
        results := results + [(entry, None)];
        continue;
      }
      var title := SplitExt(Basename(local.value)).0;
      var res := publish(local.value, title);
      results := results + [(entry, Some(res))];
    }
    assert entries[..|entries|] == entries;
  }

  /** `success_count`: the published lines whose upload succeeded. */
  function SuccessCount(results: seq<(string, Option<BrowserUpload.UploadResult>)>): nat {
    if results == [] then 0
    else SuccessCount(results[..|results| - 1])
         + (if results[|results| - 1].1.Some? && results[|results| - 1].1.value.success then 1 else 0)
  }

  /** The lines that are not None. */
  function Attempted(results: seq<(string, Option<BrowserUpload.UploadResult>)>): nat {
    if results == [] then 0
    else Attempted(results[..|results| - 1]) + (if results[|results| - 1].1.Some? then 1 else 0)
  }

  /** The process fails iff some attempted upload did not succeed; skipped entries never fail it. */
  lemma {:induction false} ExitRule(results: seq<(string, Option<BrowserUpload.UploadResult>)>)
    ensures SuccessCount(results) <= Attempted(results)
    ensures SuccessCount(results) < Attempted(results) <==>
              exists k :: 0 <= k < |results| && results[k].1.Some? && !results[k].1.value.success
  {
    if results != [] {
      var front := results[..|results| - 1];
      ExitRule(front);
      if SuccessCount(front) < Attempted(front) {
        var k :| 0 <= k < |front| && front[k].1.Some? && !front[k].1.value.success;
        assert results[k] == front[k];
      }
      if exists k :: 0 <= k < |results| && results[k].1.Some? && !results[k].1.value.success {
        var k :| 0 <= k < |results| && results[k].1.Some? && !results[k].1.value.success;
        if k < |front| {
          assert front[k] == results[k];
        }
      }
    }
  }

  /** How the script ends. */
  datatype Run =
    | MissingList
    | NoEntries
    | Finished(results: seq<(string, Option<BrowserUpload.UploadResult>)>, exitCode: int)
    | Crashed(error: Raised)

  /** `main`: `file` is the list's content, None when it is no file. */
  function RunScript(file: Option<string>, tmpVideosDir: string, cwd: string, env: Env,
                publish: (string, string) -> BrowserUpload.UploadResult): (r: Run)
    requires StartsWith(cwd, "/")
    ensures file.None? ==> r == MissingList
    ensures file.Some? && TextListPaths(file.value) == [] ==> r == NoEntries
    ensures !r.Crashed?
    ensures r.Finished? ==> |r.results| == |TextListPaths(file.value)| >= 1
    ensures r.Finished? ==> (r.exitCode == 1 <==> SuccessCount(r.results) < Attempted(r.results))
  {
    if file.None? then MissingList
    else
      var paths := TextListPaths(file.value);
      if paths == [] then NoEntries
      else
        var results := Results(paths, tmpVideosDir, cwd, env, publish);
        Finished(results, if SuccessCount(results) < Attempted(results) then 1 else 0)
  }

  /**
   * `main` as written: an entry whose download raises ends the script with
   * that exception before the summary; otherwise it ends as intended.
   */
  function RunScriptAsWritten(file: Option<string>, tmpVideosDir: string, cwd: string, env: Env,
                              publish: (string, string) -> BrowserUpload.UploadResult): (r: Run)
    requires StartsWith(cwd, "/")
    ensures file.None? ==> r == MissingList
    ensures file.Some? && TextListPaths(file.value) == [] ==> r == NoEntries
    ensures r.Crashed? <==> (file.Some? &&
              exists k :: 0 <= k < |TextListPaths(file.value)| && EnsureLocalPathAsWritten(TextListPaths(file.value)[k], tmpVideosDir, cwd, env).Err?)
    ensures !r.Crashed? ==> r == RunScript(file, tmpVideosDir, cwd, env, publish)
  {
    if file.None? then MissingList
    else
      var paths := TextListPaths(file.value);
      if paths == [] then NoEntries
      else
        AsWrittenRaisesIff(paths, tmpVideosDir, cwd, env, publish);
        match ResultsAsWritten(paths, tmpVideosDir, cwd, env, publish)
        case Err(e) => Crashed(e)
        case Ok(results) => Finished(results, if SuccessCount(results) < Attempted(results) then 1 else 0)
  }
}
