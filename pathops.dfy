/**
 * The path helpers the scripts rely on: `os.path` on POSIX (basename, splitext,
 * join, abspath) and the `name`/`stem` of a `pathlib` path.
 */
module PathOps {
  import opened Text

  /** A source is fetched over the network when it starts with an http(s) scheme. */
  predicate IsUrl(s: string) {
    StartsWith(s, "http://") || StartsWith(s, "https://")
  }

  /** `os.path.basename`: everything after the last slash. */
  function Basename(p: string): (r: string)
    ensures '/' !in r
    ensures EndsWith(p, r)
    ensures '/' !in p ==> r == p
  {
    var i := LastIndex(p, '/');
    var r := p[i + 1..];
    assert forall j :: 0 <= j < |r| ==> r[j] == p[i + 1 + j];
    r
  }

  /** Some character of `p[lo..hi]` is not a dot. */
  predicate HasNonDot(p: string, lo: int, hi: int)
    requires 0 <= lo <= hi <= |p|
  {
    exists i :: lo <= i < hi && p[i] != '.'
  }

  /**
   * `os.path.splitext`: the extension starts at the last dot of the last path
   * component, provided that dot is preceded in the component by something other
   * than dots (so ".bashrc" and "..." have no extension).
   */
  function SplitExt(p: string): (r: (string, string))
    ensures r.0 + r.1 == p
    ensures r.1 == "" || (r.1[0] == '.' && '.' !in r.1[1..] && '/' !in r.1)
  {
    var sep := LastIndex(p, '/');
    var dot := LastIndex(p, '.');
    if dot > sep && HasNonDot(p, sep + 1, dot) then
      var ext := p[dot..];
      assert forall j :: 0 <= j < |ext| ==> ext[j] == p[dot + j];
      (p[..dot], ext)
    else (p, "")
  }

  /** `os.path.splitext(os.path.basename(p))[0]`. */
  function StemOf(p: string): string {
    SplitExt(Basename(p)).0
  }

  /** A component without slashes that has a non-dot character splits at the dot added after it. */
  lemma SplitExtOfName(stem: string, ext: string)
    requires '/' !in stem && '/' !in ext && '.' !in ext
    requires exists i :: 0 <= i < |stem| && stem[i] != '.'
    ensures SplitExt(stem + "." + ext) == (stem, "." + ext)
  {
    var p := stem + "." + ext;
    assert p[|stem|] == '.';
    assert forall j :: |stem| < j < |p| ==> p[j] == ext[j - |stem| - 1];
    assert LastIndex(p, '.') == |stem|;
    assert forall j :: 0 <= j < |p| ==> p[j] != '/' by {
      forall j | 0 <= j < |p| ensures p[j] != '/' {
        if j < |stem| { assert p[j] == stem[j]; }
      }
    }
    assert LastIndex(p, '/') == -1;
    var i :| 0 <= i < |stem| && stem[i] != '.';
    assert p[i] == stem[i];
    assert p[..|stem|] == stem;
    assert p[|stem|..] == "." + ext;
  }

  /** `os.path.join(a, b)` on POSIX. */
  function PathJoin(a: string, b: string): (r: string)
    ensures EndsWith(r, b)
    ensures StartsWith(b, "/") ==> r == b
  {
    if StartsWith(b, "/") then b
    else if a == [] || EndsWith(a, "/") then a + b
    else a + "/" + b
  }

  /** Joining a plain file name to a directory and taking the basename gives the name back. */
  lemma BasenameOfJoin(dir: string, name: string)
    requires '/' !in name && name != ""
    ensures Basename(PathJoin(dir, name)) == name
  {
    var r := PathJoin(dir, name);
    assert name[0] != '/';
    assert !StartsWith(name, "/");
    var k := |r| - |name|;
    assert r[k..] == name;
    assert k == 0 || r[k - 1] == '/';
    assert forall j :: k <= j < |r| ==> r[j] == name[j - k];
    assert LastIndex(r, '/') == k - 1;
  }

  /** `os.path.dirname`: everything before the last slash, without its trailing slashes unless it is all slashes. */
  function Dirname(p: string): (r: string)
    ensures |r| <= |p| && r == p[..|r|]
  {
    var head := p[..LastIndex(p, '/') + 1];
    if exists i :: 0 <= i < |head| && head[i] != '/' then RStripChar(head, '/') else head
  }

  /** The directory of a name joined to a directory is that directory. */
  lemma DirnameOfJoin(dir: string, name: string)
    requires '/' !in name && name != ""
    requires dir != "" && dir[|dir| - 1] != '/'
    ensures Dirname(PathJoin(dir, name)) == dir
  {
    var p := PathJoin(dir, name);
    assert name[0] != '/';
    assert p == dir + "/" + name;
    LastIndexAfter(dir, '/', name);
    var head := p[..|dir| + 1];
    assert head == dir + "/";
    assert head[|dir| - 1] != '/';
    assert RStripChar(head, '/') == RStripChar(dir, '/');
  }

  /** `os.path.abspath` for the paths this project passes it (already normal). */
  function AbsPath(cwd: string, p: string): (r: string)
    requires StartsWith(cwd, "/")
    ensures StartsWith(r, "/")
  {
    if StartsWith(p, "/") then p else
      var r := PathJoin(cwd, p);
      assert r[..|cwd|] == cwd;
      r
  }

  /** The last non-empty, non-"." component of a slash-separated list, or "". */
  function LastComponent(parts: seq<string>): (r: string)
    ensures r == "" || (r in parts && r != ".")
  {
    if parts == [] then ""
    else if parts[|parts| - 1] != "" && parts[|parts| - 1] != "." then parts[|parts| - 1]
    else LastComponent(parts[..|parts| - 1])
  }

  /** `pathlib.PurePosixPath(p).name`. */
  function PathlibName(p: string): (r: string)
    ensures '/' !in r
  {
    var parts := Split(p, '/');
    var r := LastComponent(parts);
    assert r == "" || r in parts;
    r
  }

  /** `PurePath.stem`: the name without its final suffix, where a suffix needs a dot that is neither first nor last. */
  function PathlibStem(p: string): (r: string)
    ensures '/' !in r
    ensures StartsWith(PathlibName(p), r)
    ensures r == PathlibName(p) || PathlibName(p)[|r|] == '.'
  {
    var name := PathlibName(p);
    var i := LastIndex(name, '.');
    if 0 < i < |name| - 1 then name[..i] else name
  }
}
