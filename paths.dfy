/**
 * Path resolution: which file of the service a request path names, the
 * directories leading to it, and the extension used to choose its MIME type.
 */
module Paths {
  import opened Labels

  /** The directories to walk, top-down, and the file to serve from the last one. */
  datatype ResourcePath = ResourcePath(dirs: seq<string>, fileName: string)

  /** File served when the path names none. */
  const DefaultFileName: string := "index.html"

  /** MIME extension the gateway would use if `rsplit` yielded nothing. */
  const FallbackExtension: string := "html"

  /**
   * The last segment is popped off as the file name ("index.html" when the
   * path is empty or ends in an empty segment); the rest, untouched and in
   * order, are the directories.
   */
  function ResolvePath(path: seq<string>): (r: ResourcePath)
    ensures r.fileName != ""
    ensures |path| == 0 ==> r == ResourcePath([], DefaultFileName)
    ensures |path| > 0 ==> r.dirs + [path[|path| - 1]] == path
    ensures |path| > 0 && path[|path| - 1] != "" ==> r.fileName == path[|path| - 1]
    ensures |path| > 0 && path[|path| - 1] == "" ==> r.fileName == DefaultFileName
  {
    var name := if |path| > 0 then path[|path| - 1] else "";
    var dirs := if |path| > 0 then path[..|path| - 1] else [];
    ResourcePath(dirs, if name == "" then DefaultFileName else name)
  }

  /**
   * The first piece `rsplit(".")` yields from the file name: the text after
   * its last dot, or the whole name when it has none.
   */
  function Extension(fileName: string): (r: string)
    ensures '.' !in r
    ensures |r| <= |fileName| && fileName[|fileName| - |r|..] == r
    ensures |r| < |fileName| ==> fileName[|fileName| - |r| - 1] == '.'
  {
    var parts := RSplit(fileName, '.');
    if |parts| >= 1 then parts[0] else FallbackExtension
  }

  /** A name with no dot is its own extension. */
  lemma ExtensionOfDotless(fileName: string)
    requires '.' !in fileName
    ensures Extension(fileName) == fileName
  {
  }

  /** A name of the form `stem.ext`, with no dot in `ext`, has extension `ext`. */
  lemma {:induction false} ExtensionAfterLastDot(stem: string, ext: string)
    requires '.' !in ext
    ensures Extension(stem + "." + ext) == ext
  {
    var f := stem + "." + ext;
    var r := Extension(f);
    assert f[|stem|] == '.';
    assert forall i :: 0 <= i < |ext| ==> f[|stem| + 1 + i] == ext[i];
    assert |r| == |ext|;
    assert f[|f| - |ext|..] == ext;
  }

  /** The paths a request may carry: a nested file, a trailing slash, and no path at all. */
  lemma ExamplePaths()
    ensures ResolvePath(["a", "b", "c.txt"]) == ResourcePath(["a", "b"], "c.txt")
    ensures ResolvePath(["a", "b", ""]) == ResourcePath(["a", "b"], "index.html")
    ensures ResolvePath([""]) == ResourcePath([], "index.html")
    ensures ResolvePath([]) == ResourcePath([], "index.html")
  {
    assert ["a", "b", "c.txt"][..2] == ["a", "b"];
    assert ["a", "b", ""][..2] == ["a", "b"];
  }

  /** docs/readme.md names readme.md in directory docs, and its extension is "md". */
  lemma ExampleReadme()
    ensures ResolvePath(["docs", "readme.md"]) == ResourcePath(["docs"], "readme.md")
    ensures Extension("readme.md") == "md"
  {
    assert ["docs", "readme.md"][..1] == ["docs"];
    assert "readme.md" == "readme" + "." + "md";
    ExtensionAfterLastDot("readme", "md");
  }
}
