/**
 * `merge_mp4_ffmpeg2.py`: read a list (a local file or a URL), fetch every
 * entry into a work directory under a numbered local name, write a concat list
 * of their absolute paths and merge it with ffmpeg.
 */
module MergeFfmpeg2 {
  import opened Base
  import opened Text
  import opened PathOps
  import opened ConcatList
  import opened ConcatMerge

  const NeedRequestsMsg := "从 URL 读取列表需安装 requests: pip install requests"
  const EmptyListMsg := "列表文件为空或格式错误。每行应为: file 'path/to/video.mp4' 或 file 'http://...'"
  const FallbackName := "video.mp4"
  const ListFileName := "concat_list.txt"

  /**
   * `_load_mapbinlist`: a URL is fetched (`fetch` gives the body or the
   * exception of the request), anything else must be a file (`file` is its
   * content, None when it is none); the text is then parsed.
   */
  function LoadMapbinlist(source: string, requestsOk: bool, fetch: string -> Result<string, Raised>, file: Option<string>)
    : (r: Result<seq<string>, Raised>)
    ensures IsUrl(source) && !requestsOk ==> r == Err(Raised("RuntimeError", NeedRequestsMsg))
    ensures !IsUrl(source) && file.None? ==> r == Err(Raised("IOError", MissingListPrefix + source))
    ensures !IsUrl(source) && file.Some? ==> r == Ok(TextListPaths(file.value))
    ensures IsUrl(source) && requestsOk && fetch(source).Ok? ==> r == Ok(TextListPaths(fetch(source).value))
  {
    if IsUrl(source) then
      if !requestsOk then Err(Raised("RuntimeError", NeedRequestsMsg))
      else match fetch(source)
        case Ok(text) => Ok(TextListPaths(text))
        case Err(e) => Err(e)
    else if file.None? then Err(Raised("IOError", MissingListPrefix + source))
    else Ok(TextListPaths(file.value))
  }

  // ------------------------------------------------------- the default output name

  /** `_default_output_basename`: the MD5 hex digest (`md5`) of the paths joined by newlines. */
  function DefaultOutputBasename(paths: seq<string>, md5: string -> string): string {
    md5(Join(paths, "\n"))
  }

  /**
   * Different lists give different digest inputs, provided no path holds a
   * newline (the parser never yields one) and both lists are non-empty: the
   * name is as unique as MD5 is.
   */
  lemma DigestInputsDiffer(a: seq<string>, b: seq<string>)
    requires |a| >= 1 && |b| >= 1
    requires forall i :: 0 <= i < |a| ==> '\n' !in a[i]
    requires forall i :: 0 <= i < |b| ==> '\n' !in b[i]
    requires Join(a, "\n") == Join(b, "\n")
    ensures a == b
  {
    SplitJoin(a, '\n');
    SplitJoin(b, '\n');
  }

  /** `main`'s output: given paths are made absolute; without one the merge goes to `<digest>.mp4` in the work directory. */
  function OutputPath(arg: Option<string>, workDir: string, cwd: string, paths: seq<string>, md5: string -> string): (r: string)
    requires StartsWith(cwd, "/")
    ensures arg.Some? ==> r == AbsPath(cwd, arg.value)
    ensures arg.None? ==> r == PathJoin(workDir, md5(Join(paths, "\n")) + ".mp4") && EndsWith(r, ".mp4")
  {
    if arg.Some? then AbsPath(cwd, arg.value)
    else
      var r := PathJoin(workDir, DefaultOutputBasename(paths, md5) + ".mp4");
      assert EndsWith(r, DefaultOutputBasename(paths, md5) + ".mp4");
      assert r[|r| - 4..] == (DefaultOutputBasename(paths, md5) + ".mp4")[|DefaultOutputBasename(paths, md5)|..];
      r
  }

  // ------------------------------------------------------- local names

  /** `_basename_from_path`: for a URL the last segment before `?` once trailing slashes are gone, else the basename; "video.mp4" when empty. */
  function BasenameFromPath(p: string): (r: string)
    ensures r != "" && '/' !in r
  {
    FallbackPlain();
    if IsUrl(p) then
      var part := RStripChar(Split(p, '?')[0], '/');
      if part != "" then
        var segs := Split(part, '/');
        var last := segs[|segs| - 1];
        SplitLastNonEmpty(part);
        last
      else FallbackName
    else
      var b := Basename(p);
      if b != "" then b else FallbackName
  }

  lemma FallbackPlain()
    ensures FallbackName != "" && '/' !in FallbackName
  {
    assert forall k :: 0 <= k < |FallbackName| ==> FallbackName[k] != '/';
  }

  /** A string that does not end with `/` has a non-empty last `/`-segment. */
  lemma {:induction false} SplitLastNonEmpty(s: string)
    requires s != [] && s[|s| - 1] != '/'
    ensures var segs := Split(s, '/'); segs[|segs| - 1] != ""
  {
    if |s| > 1 {
      SplitLastNonEmpty(s[1..]);
    }
  }

  /** `.mp4` appended to a name that does not end with it in any case. */
  function WithMp4(base: string): (r: string)
    ensures EndsWith(Lower(r), ".mp4")
    ensures EndsWith(Lower(base), ".mp4") ==> r == base
    ensures r == base || r == base + ".mp4"
  {
    if EndsWith(Lower(base), ".mp4") then base
    else
      LowerConcat(base, ".mp4");
      assert Lower(".mp4") == ".mp4";
      base + ".mp4"
  }

  /** The entry's base name, ending in `.mp4`. */
  function Mp4Base(item: string): (r: string)
    ensures EndsWith(Lower(r), ".mp4")
    ensures r != "" && '/' !in r
  {
    var r := WithMp4(BasenameFromPath(item));
    assert r == BasenameFromPath(item) || r == BasenameFromPath(item) + ".mp4";
    r
  }

  /** The local name of the `i`-th entry: `{i}_{base}`. */
  function LocalName(i: nat, item: string): (r: string)
    ensures EndsWith(Lower(r), ".mp4") && '/' !in r
  {
    var d := NatToString(i) + "_";
    var base := Mp4Base(item);
    LowerSuffix(d, base, ".mp4");
    assert forall k :: 0 <= k < |d| ==> d[k] != '/';
    d + base
  }

  /** The first `_` of `d + "_" + x` is the added one when `d` has none. */
  lemma FirstUnderscore(d: string, x: string)
    requires '_' !in d
    ensures FirstIndex(d + "_" + x, '_') == |d|
  {
    var s := d + "_" + x;
    assert s[|d|] == '_';
    assert forall j :: 0 <= j < |d| ==> s[j] == d[j];
  }

  /** Different positions always get different local names, so no fetched file overwrites another. */
  lemma LocalNamesDistinct(i: nat, a: string, j: nat, b: string)
    requires i != j
    ensures LocalName(i, a) != LocalName(j, b)
  {
    if LocalName(i, a) == LocalName(j, b) {
      LocalNamePrefix(i, a);
      LocalNamePrefix(j, b);
      NatToStringInjective(i, j);
    }
  }

  /** A local name starts with its number, which ends at the name's first `_`. */
  lemma LocalNamePrefix(i: nat, a: string)
    ensures var s, d := LocalName(i, a), NatToString(i);
      FirstIndex(s, '_') == |d| && |d| <= |s| && s[..|d|] == d
  {
    var d := NatToString(i);
    assert forall k :: 0 <= k < |d| ==> d[k] != '_';
    FirstUnderscore(d, Mp4Base(a));
    var s := d + "_" + Mp4Base(a);
    assert s[..|d|] == d;
  }

  /** The names are numbered from 0 with no padding: the first entry is `0_<base>`, not `000_<base>`. */
  lemma FirstNameIsUnpadded(item: string)
    ensures LocalName(0, item) == "0" + "_" + Mp4Base(item)
  {
    assert NatToString(0) == "0";
  }

  /** The local names of `items`, numbered from 0. */
  function LocalNames(items: seq<string>): (r: seq<string>)
    ensures |r| == |items|
  {
    if items == [] then [] else LocalNames(items[..|items| - 1]) + [LocalName(|items| - 1, items[|items| - 1])]
  }

  lemma {:induction false} LocalNamesAt(items: seq<string>, k: nat)
    requires k < |items|
    ensures LocalNames(items)[k] == LocalName(k, items[k])
  {
    if k < |items| - 1 {
      LocalNamesAt(items[..|items| - 1], k);
    }
  }

  /** A fetch to perform: the entry and the file it is saved to. */
  datatype Task = Task(item: string, dest: string)

  /** Each entry paired with its destination in `dir`. */
  function Tasks(dir: string, items: seq<string>): (r: seq<Task>)
    ensures |r| == |items|
  {
    if items == [] then []
    else Tasks(dir, items[..|items| - 1]) + [Task(items[|items| - 1], PathJoin(dir, LocalName(|items| - 1, items[|items| - 1])))]
  }

  lemma {:induction false} TasksAt(dir: string, items: seq<string>, k: nat)
    requires k < |items|
    ensures Tasks(dir, items)[k] == Task(items[k], PathJoin(dir, LocalName(k, items[k])))
  {
    if k < |items| - 1 {
      TasksAt(dir, items[..|items| - 1], k);
    }
  }

  /**
   * `_prepare_videos_to_dir`, up to the fetches: one task and one local name per
   * entry, in list order. The fetches themselves run in a thread pool and are
   * not modelled; with no entries no pool is made.
   */
  method PrepareVideosToDir(paths: seq<string>, workDir: string) returns (tasks: seq<Task>, names: seq<string>)
    ensures names == LocalNames(paths)
    ensures tasks == Tasks(workDir, paths)
  {
    tasks := [];
    names := [];
    for i := 0 to |paths|
      invariant names == LocalNames(paths[..i])
      invariant tasks == Tasks(workDir, paths[..i])
    {
      var name := NatToString(i) + "_" + WithMp4(BasenameFromPath(paths[i]));
      assert name == LocalName(i, paths[i]);
      assert paths[..i + 1][..i] == paths[..i];
      tasks := tasks + [Task(paths[i], PathJoin(workDir, name))];
      names := names + [name];
    }
    assert paths[..|paths|] == paths;
  }

  /**
   * Every entry is saved to a file of its own: the destinations of two
   * different positions differ, whatever the entries are (two URLs with the
   * same last segment included).
   */
  lemma DestinationsDistinct(dir: string, items: seq<string>, i: nat, j: nat)
    requires i < |items| && j < |items| && i != j
    ensures Tasks(dir, items)[i].dest != Tasks(dir, items)[j].dest
  {
    TasksAt(dir, items, i);
    TasksAt(dir, items, j);
    LocalNamesDistinct(i, items[i], j, items[j]);
    var a, b := LocalName(i, items[i]), LocalName(j, items[j]);
    assert a != "" && b != "" by {
      assert EndsWith(Lower(a), ".mp4") && EndsWith(Lower(b), ".mp4");
    }
    BasenameOfJoin(dir, a);
    BasenameOfJoin(dir, b);
  }

  // ------------------------------------------------------- the list written

  /** The absolute path of every local name. */
  function InDir(dir: string, names: seq<string>): (r: seq<string>)
    ensures |r| == |names|
    ensures forall i :: 0 <= i < |r| ==> r[i] == PathJoin(dir, names[i])
  {
    if names == [] then [] else [PathJoin(dir, names[0])] + InDir(dir, names[1..])
  }

  /**
   * `_write_local_concat_list`: the list file goes to the work directory and
   * names every local file by its absolute path; the list's absolute path is
   * returned.
   */
  method WriteLocalConcatList(workDir: string, names: seq<string>, cwd: string) returns (listPath: string, content: string)
    requires StartsWith(cwd, "/")
    ensures listPath == AbsPath(cwd, PathJoin(workDir, ListFileName))
    ensures content == Render(InDir(AbsPath(cwd, workDir), names))
  {
    var dirAbs := AbsPath(cwd, workDir);
    content := WriteList(InDir(dirAbs, names));
    listPath := AbsPath(cwd, PathJoin(workDir, ListFileName));
  }

  /** No single quote and no line break. */
  predicate Plain(s: string) {
    forall i :: 0 <= i < |s| ==> s[i] != '\'' && !IsBreak(StrSplitLines, s[i])
  }

  lemma JoinPlain(a: string, b: string)
    requires Plain(a) && Plain(b)
    ensures Plain(PathJoin(a, b))
  {
    var r := PathJoin(a, b);
    if !StartsWith(b, "/") && !(a == [] || EndsWith(a, "/")) {
      assert forall i :: 0 <= i < |r| ==> r[i] == (if i < |a| then a[i] else if i == |a| then '/' else b[i - |a| - 1]);
    } else if !StartsWith(b, "/") {
      assert forall i :: 0 <= i < |r| ==> r[i] == (if i < |a| then a[i] else b[i - |a|]);
    }
  }

  /**
   * Reading the written list back with the content parser gives the absolute
   * paths of the local files in order, when the work directory and the names
   * hold no quote and no line break.
   */
  lemma WrittenListReadsBack(dir: string, names: seq<string>)
    requires Plain(dir)
    requires forall i :: 0 <= i < |names| ==> names[i] != "" && Plain(names[i])
    ensures TextListPaths(Render(InDir(dir, names))) == InDir(dir, names)
  {
    var paths := InDir(dir, names);
    forall i | 0 <= i < |paths| ensures paths[i] != "" && NoBreak(StrSplitLines, paths[i]) && '\'' !in paths[i] {
      JoinPlain(dir, names[i]);
      assert EndsWith(paths[i], names[i]);
    }
    RenderRoundTripPlain(StrSplitLines, paths);
  }

  // ------------------------------------------------------- merge_by_concat_list

  /** `merge_by_concat_list`: the missing list raises IOError here; the rest is as in the other ffmpeg script. */
  function MergeByConcatList(
    listPath: string, outputPath: string, ffmpegBin: string, cwd: string,
    file: Option<string>, run: seq<string> -> ProcResult): (r: MergeRun)
    requires StartsWith(cwd, "/")
    ensures file.None? ==> r.result == Err(Raised("IOError", MissingListPrefix + listPath)) && r.cmd.None?
    ensures file.Some? && ReadValidLines(file.value) == [] ==> r.result == Err(Raised("ValueError", EmptyListMsg)) && r.cmd.None?
    ensures r.cmd.Some? ==> r.cmd.value == ConcatCommand(ffmpegBin, AbsPath(cwd, listPath), AbsPath(cwd, outputPath))
    ensures r.result.Ok? <==> r.cmd.Some? && Exited0(run(r.cmd.value))
    ensures r.cmd.Some? && run(r.cmd.value).RunRaised? ==> r.result == Err(run(r.cmd.value).error)
    ensures r.result.Ok? ==> r.result.value == AbsPath(cwd, outputPath)
  {
    ConcatMerge.MergeByConcatList("IOError", EmptyListMsg, listPath, outputPath, ffmpegBin, cwd, file, run)
  }
}
