/**
 * The ffmpeg concat-list text format shared by the merge scripts: one
 * `file 'path'` line per input, read back by stripping each line, keeping the
 * ones that start with `file ` and removing one pair of matching quotes.
 */
module ConcatList {
  import opened Base
  import opened Text

  /**
   * How text is cut into lines: iterating over a file opened in text mode ends a
   * line at `\n` or `\r`; `str.splitlines` also ends one at the other Unicode line
   * boundaries.
   */
  datatype LineMode = FileLines | StrSplitLines

  predicate IsBreak(mode: LineMode, c: char) {
    c == '\n' || c == '\r'
    || (mode == StrSplitLines
        && (c == '\U{B}' || c == '\U{C}' || ('\U{1C}' <= c <= '\U{1E}')
            || c == '\U{85}' || c == '\U{2028}' || c == '\U{2029}'))
  }

  predicate NoBreak(mode: LineMode, s: string) {
    forall i :: 0 <= i < |s| ==> !IsBreak(mode, s[i])
  }

  /**
   * The pieces between line breaks. Python drops the terminators and, for "\r\n",
   * yields one line where this yields an extra empty piece; every reader here
   * discards blank lines, so the two agree on what is read.
   */
  function Lines(mode: LineMode, s: string): (r: seq<string>)
    ensures |r| >= 1
    ensures forall i :: 0 <= i < |r| ==> NoBreak(mode, r[i])
  {
    if s == [] then [""]
    else
      var rest := Lines(mode, s[1..]);
      if IsBreak(mode, s[0]) then [""] + rest
      else [[s[0]] + rest[0]] + rest[1..]
  }

  lemma {:induction false} LinesOfLine(mode: LineMode, a: string)
    requires NoBreak(mode, a)
    ensures Lines(mode, a) == [a]
  {
    if a != [] {
      LinesOfLine(mode, a[1..]);
      assert [a[0]] + a[1..] == a;
    }
  }

  lemma {:induction false} LinesAtBreak(mode: LineMode, a: string, b: string)
    requires NoBreak(mode, a)
    ensures Lines(mode, a + "\n" + b) == [a] + Lines(mode, b)
  {
    if a == [] {
      assert a + "\n" + b == "\n" + b;
      assert ("\n" + b)[1..] == b;
    } else {
      assert (a + "\n" + b)[1..] == a[1..] + "\n" + b;
      LinesAtBreak(mode, a[1..], b);
      assert [a[0]] + a[1..] == a;
    }
  }

  /** `[ln.strip() for ln in lines if ln.strip()]`. */
  function NonBlank(lines: seq<string>): (r: seq<string>)
    ensures |r| <= |lines|
    ensures forall i :: 0 <= i < |r| ==> r[i] != "" && Trimmed(r[i])
  {
    if lines == [] then []
    else (if Strip(lines[0]) != "" then [Strip(lines[0])] else []) + NonBlank(lines[1..])
  }

  /** The path a stripped line names: text after `file `, stripped, with one pair of matching quotes removed. */
  function Entry(ln: string): (r: Option<string>)
    ensures r.Some? ==> StartsWith(ln, "file ") && r.value != ""
  {
    if !StartsWith(ln, "file ") then None
    else
      var rest := Strip(ln[5..]);
      var path :=
        if |rest| >= 1 && ((rest[0] == '\'' && rest[|rest| - 1] == '\'') || (rest[0] == '"' && rest[|rest| - 1] == '"'))
        then (if |rest| >= 2 then rest[1..|rest| - 1] else "")
        else rest;
      if path != "" then Some(path) else None
  }

  /** The paths named by a list of stripped lines, in order. */
  function Paths(lines: seq<string>): (r: seq<string>)
    ensures |r| <= |lines|
    ensures forall i :: 0 <= i < |r| ==> r[i] != ""
  {
    if lines == [] then []
    else
      Paths(lines[..|lines| - 1])
      + (match Entry(lines[|lines| - 1]) case Some(p) => [p] case None => [])
  }

  lemma {:induction false} PathsAppend(a: seq<string>, b: seq<string>)
    ensures Paths(a + b) == Paths(a) + Paths(b)
    decreases |b|
  {
    if b != [] {
      var last := b[|b| - 1];
      assert (a + b)[..|a + b| - 1] == a + b[..|b| - 1];
      PathsAppend(a, b[..|b| - 1]);
    } else {
      assert a + b == a;
    }
  }

  lemma PathsSnoc(lines: seq<string>, k: nat)
    requires k < |lines|
    ensures Paths(lines[..k + 1]) == Paths(lines[..k]) + (match Entry(lines[k]) case Some(p) => [p] case None => [])
  {
    assert lines[..k + 1][..k] == lines[..k];
  }

  /**
   * The reading loop of the merge scripts' list parsers: keeps the non-blank lines
   * and collects the path of each `file` line.
   */
  method ParseLines(lines: seq<string>) returns (paths: seq<string>)
    ensures paths == Paths(NonBlank(lines))
  {
    var kept := NonBlank(lines);
    paths := [];
    for k := 0 to |kept|
      invariant paths == Paths(kept[..k])
    {
      var ln := kept[k];
      PathsSnoc(kept, k);
      if StartsWith(ln, "file ") {
        var rest := Strip(ln[5..]);
        if |rest| >= 1 && ((rest[0] == '\'' && rest[|rest| - 1] == '\'') || (rest[0] == '"' && rest[|rest| - 1] == '"')) {
          rest := if |rest| >= 2 then rest[1..|rest| - 1] else "";
        }
        if rest != "" {
          assert Entry(ln) == Some(rest);
          paths := paths + [rest];
        } else {
          assert Entry(ln).None?;
        }
      } else {
        assert Entry(ln).None?;
      }
    }
    assert kept[..|kept|] == kept;
  }

  /** `[ln for ln in stripped_lines if ln.startswith("file ")]`. */
  function ValidLines(lines: seq<string>): (r: seq<string>)
    ensures |r| <= |lines|
    ensures forall i :: 0 <= i < |r| ==> StartsWith(r[i], "file ") && r[i] in lines
  {
    if lines == [] then []
    else (if StartsWith(lines[0], "file ") then [lines[0]] else []) + ValidLines(lines[1..])
  }

  /** One list line for a path, with its single quotes escaped as `'\''`. */
  function RenderLine(p: string): string {
    "file '" + EscapeQuote(p) + "'"
  }

  /** The list file content written for a sequence of paths. */
  function Render(paths: seq<string>): string {
    if paths == [] then "" else RenderLine(paths[0]) + "\n" + Render(paths[1..])
  }

  function MapEscape(paths: seq<string>): (r: seq<string>)
    ensures |r| == |paths|
    ensures forall i :: 0 <= i < |r| ==> r[i] == EscapeQuote(paths[i])
  {
    if paths == [] then [] else [EscapeQuote(paths[0])] + MapEscape(paths[1..])
  }

  function MapRenderLine(paths: seq<string>): (r: seq<string>)
    ensures |r| == |paths|
    ensures forall i :: 0 <= i < |r| ==> r[i] == RenderLine(paths[i])
  {
    if paths == [] then [] else [RenderLine(paths[0])] + MapRenderLine(paths[1..])
  }

  lemma {:induction false} EscapeNoBreak(mode: LineMode, p: string)
    requires NoBreak(mode, p)
    ensures NoBreak(mode, EscapeQuote(p))
  {
    if p != [] {
      EscapeNoBreak(mode, p[1..]);
      assert NoBreak(mode, p[1..]);
      var head := if p[0] == '\'' then "'\\''" else [p[0]];
      assert NoBreak(mode, head);
      assert EscapeQuote(p) == head + EscapeQuote(p[1..]);
    }
  }

  lemma RenderLineShape(mode: LineMode, p: string)
    requires NoBreak(mode, p)
    ensures NoBreak(mode, RenderLine(p))
    ensures Trimmed(RenderLine(p)) && RenderLine(p) != ""
  {
    EscapeNoBreak(mode, p);
    var e := EscapeQuote(p);
    var ln := RenderLine(p);
    assert forall i :: 0 <= i < |e| ==> ln[6 + i] == e[i];
  }

  lemma {:induction false} LinesOfRender(mode: LineMode, paths: seq<string>)
    requires forall i :: 0 <= i < |paths| ==> NoBreak(mode, paths[i])
    ensures Lines(mode, Render(paths)) == MapRenderLine(paths) + [""]
  {
    if paths != [] {
      RenderLineShape(mode, paths[0]);
      LinesOfRender(mode, paths[1..]);
      LinesAtBreak(mode, RenderLine(paths[0]), Render(paths[1..]));
    } else {
      LinesOfLine(mode, "");
    }
  }

  lemma {:induction false} NonBlankOfRendered(mode: LineMode, paths: seq<string>)
    requires forall i :: 0 <= i < |paths| ==> NoBreak(mode, paths[i])
    ensures NonBlank(MapRenderLine(paths) + [""]) == MapRenderLine(paths)
  {
    if paths == [] {
      assert NonBlank([""]) == [] + NonBlank([]);
    } else {
      var p := paths[0];
      RenderLineShape(mode, p);
      StripOfTrimmed(RenderLine(p));
      NonBlankOfRendered(mode, paths[1..]);
      assert (MapRenderLine(paths) + [""])[1..] == MapRenderLine(paths[1..]) + [""];
    }
  }

  lemma EntryOfRenderLine(p: string)
    requires p != ""
    ensures Entry(RenderLine(p)) == Some(EscapeQuote(p))
  {
    var e := EscapeQuote(p);
    var ln := RenderLine(p);
    assert StartsWith(ln, "file ");
    var rest := ln[5..];
    assert rest == "'" + e + "'";
    assert Trimmed(rest);
    StripOfTrimmed(rest);
    assert rest[1..|rest| - 1] == e;
  }

  lemma PathsOfOne(ln: string, p: string)
    requires Entry(ln) == Some(p)
    ensures Paths([ln]) == [p]
  {
    assert [ln][..0] == [];
  }

  lemma {:induction false} PathsOfRenderLines(paths: seq<string>)
    requires forall i :: 0 <= i < |paths| ==> paths[i] != ""
    ensures Paths(MapRenderLine(paths)) == MapEscape(paths)
  {
    if paths != [] {
      var head := RenderLine(paths[0]);
      var tail := MapRenderLine(paths[1..]);
      EntryOfRenderLine(paths[0]);
      PathsOfOne(head, EscapeQuote(paths[0]));
      PathsOfRenderLines(paths[1..]);
      PathsAppend([head], tail);
      calc {
        Paths(MapRenderLine(paths));
        Paths([head] + tail);
        Paths([head]) + Paths(tail);
        [EscapeQuote(paths[0])] + MapEscape(paths[1..]);
        MapEscape(paths);
      }
    }
  }

  /**
   * Reading back a written list yields each path with its quotes escaped (ffmpeg
   * itself undoes the escape; this reader does not), whichever way the text is cut
   * into lines.
   */
  lemma RenderRoundTrip(mode: LineMode, paths: seq<string>)
    requires forall i :: 0 <= i < |paths| ==> paths[i] != "" && NoBreak(mode, paths[i])
    ensures Paths(NonBlank(Lines(mode, Render(paths)))) == MapEscape(paths)
  {
    LinesOfRender(mode, paths);
    NonBlankOfRendered(mode, paths);
    PathsOfRenderLines(paths);
  }

  /** Paths without single quotes come back unchanged. */
  lemma RenderRoundTripPlain(mode: LineMode, paths: seq<string>)
    requires forall i :: 0 <= i < |paths| ==> paths[i] != "" && NoBreak(mode, paths[i]) && '\'' !in paths[i]
    ensures Paths(NonBlank(Lines(mode, Render(paths)))) == paths
  {
    RenderRoundTrip(mode, paths);
    forall i | 0 <= i < |paths| ensures MapEscape(paths)[i] == paths[i] {
      EscapeQuoteIdentity(paths[i]);
    }
  }

  /** `s` holds no break that only `str.splitlines` knows. */
  predicate PlainBreaks(s: string) {
    forall i :: 0 <= i < |s| ==> (IsBreak(StrSplitLines, s[i]) ==> IsBreak(FileLines, s[i]))
  }

  /** Text holding only `\n` and `\r` breaks is cut the same way by both readers. */
  lemma {:induction false} LineModesAgree(s: string)
    requires PlainBreaks(s)
    ensures Lines(FileLines, s) == Lines(StrSplitLines, s)
  {
    if s != [] {
      assert PlainBreaks(s[1..]) by {
        forall i | 0 <= i < |s[1..]| ensures IsBreak(StrSplitLines, s[1..][i]) ==> IsBreak(FileLines, s[1..][i]) {
          assert s[1..][i] == s[i + 1];
        }
      }
      LineModesAgree(s[1..]);
    }
  }

  /** The paths of a list read with `str.splitlines` (the content parsers). */
  function TextListPaths(content: string): seq<string> {
    Paths(NonBlank(Lines(StrSplitLines, content)))
  }

  /** The paths of a list read by iterating over the open file. */
  function FileListPaths(content: string): seq<string> {
    Paths(NonBlank(Lines(FileLines, content)))
  }

  /** The two kinds of list parser read the same paths from text whose only breaks are `\n` and `\r`. */
  lemma TextAndFileListsAgree(content: string)
    requires PlainBreaks(content)
    ensures TextListPaths(content) == FileListPaths(content)
  {
    LineModesAgree(content);
  }

  /** `_parse_concat_list_from_content` and `_parse_mapbinlist`: the lines of `content.splitlines()`, parsed. */
  method ParseText(content: string) returns (paths: seq<string>)
    ensures paths == TextListPaths(content)
    ensures forall i :: 0 <= i < |paths| ==> paths[i] != ""
  {
    paths := ParseLines(Lines(StrSplitLines, content));
  }

  /** `parse_concat_list` of the cv2 and moviepy scripts: the lines of the open file, parsed. */
  method ParseFile(content: string) returns (paths: seq<string>)
    ensures paths == FileListPaths(content)
    ensures forall i :: 0 <= i < |paths| ==> paths[i] != ""
  {
    paths := ParseLines(Lines(FileLines, content));
  }

  /** Every path comes from a `file` line, so there are never more paths than such lines. */
  lemma {:induction false} PathsNeedFileLines(lines: seq<string>)
    ensures |Paths(lines)| <= |ValidLines(lines)|
  {
    if lines != [] {
      PathsAppend([lines[0]], lines[1..]);
      assert [lines[0]] + lines[1..] == lines;
      assert [lines[0]][..0] == [];
      PathsNeedFileLines(lines[1..]);
    }
  }

  /** A `file` line naming nothing passes the line check but yields no path. */
  lemma EmptyFileLineNamesNothing()
    ensures ValidLines(["file ''"]) == ["file ''"]
    ensures Paths(["file ''"]) == []
  {
    var ln := "file ''";
    assert StartsWith(ln, "file ");
    assert ln[5..] == "''";
    StripOfTrimmed("''");
    assert [ln][..0] == [];
  }

  /** Writing one more line appends it to the written text. */
  lemma {:induction false} RenderSnoc(paths: seq<string>, p: string)
    ensures Render(paths + [p]) == Render(paths) + RenderLine(p) + "\n"
  {
    if paths == [] {
      assert [p][1..] == [];
    } else {
      assert (paths + [p])[1..] == paths[1..] + [p];
      RenderSnoc(paths[1..], p);
    }
  }

  /** The loop that writes a list file, one escaped `file` line per path. */
  method WriteList(paths: seq<string>) returns (content: string)
    ensures content == Render(paths)
  {
    content := "";
    for k := 0 to |paths|
      invariant content == Render(paths[..k])
    {
      RenderSnoc(paths[..k], paths[k]);
      assert paths[..k + 1] == paths[..k] + [paths[k]];
      content := content + "file '" + EscapeQuote(paths[k]) + "'\n";
    }
    assert paths[..|paths|] == paths;
  }
}
