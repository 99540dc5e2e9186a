/** The upload filter: only pictures whose file name ends in `.png`, `.jpg` or `.jpeg` are taken. */
module Upload {
  import opened Common

  /** The position of the last `c` in `s`, if any. */
  function LastIndexOf(s: string, c: char): (r: Option<nat>)
    ensures r.None? <==> c !in s
    ensures r.Some? ==> r.value < |s| && s[r.value] == c && c !in s[r.value + 1..]
  {
    if s == [] then None
    else if s[|s| - 1] == c then Some(|s| - 1)
    else
      assert s == s[..|s| - 1] + [s[|s| - 1]];
      var r := LastIndexOf(s[..|s| - 1], c);
      if r.Some? then
        assert s[r.value + 1..] == s[..|s| - 1][r.value + 1..] + [s[|s| - 1]];
        r
      else r
  }

  /** `s` without its trailing `/` characters. */
  function TrimTrailingSlashes(s: string): (r: string)
    ensures |r| <= |s| && r == s[..|r|]
    ensures r == [] || r[|r| - 1] != '/'
    ensures forall i :: |r| <= i < |s| ==> s[i] == '/'
  {
    if s != [] && s[|s| - 1] == '/' then TrimTrailingSlashes(s[..|s| - 1]) else s
  }

  /** The last component of a POSIX path. */
  function BaseName(path: string): (b: string)
    ensures '/' !in b
    ensures var t := TrimTrailingSlashes(path);
            |b| <= |t| && b == t[|t| - |b|..] && (|b| == |t| || t[|t| - |b| - 1] == '/')
  {
    var t := TrimTrailingSlashes(path);
    match LastIndexOf(t, '/')
    case None => t
    case Some(i) => t[i + 1..]
  }

  /** A name under a directory is its own last component. */
  lemma BaseNameUnderDirectory(dir: string, name: string)
    requires name != [] && '/' !in name
    ensures BaseName(dir + "/" + name) == name
  {
    var path := dir + "/" + name;
    assert path[..|path|] == path;
    assert path[|path| - 1] == name[|name| - 1];
    var t := TrimTrailingSlashes(path);
    assert t == path;
    var i := |dir|;
    assert path[i] == '/' && path[i + 1..] == name;
    var k := LastIndexOf(path, '/');
    assert k.Some?;
    assert forall j :: i < j < |path| ==> path[j] == name[j - i - 1] != '/';
    assert forall j :: k.value < j < |path| ==> path[j] == path[k.value + 1..][j - k.value - 1] != '/';
  }

  /** Node's POSIX `path.extname`: the last component's text from its last `.` on; `''` when that
      component has no `.`, when its only `.` leads it (a dot-file such as `.png`), or when it is `..`. */
  function ExtName(path: string): (e: string)
    ensures e == "" || (e[0] == '.' && '.' !in e[1..] && '/' !in e)
  {
    var b := BaseName(path);
    match LastIndexOf(b, '.')
    case None => ""
    case Some(i) =>
      if i == 0 || b == ".." then ""
      else
        assert b[i..][1..] == b[i + 1..];
        assert forall c :: c in b[i..] ==> c in b;
        b[i..]
  }

  /** The extensions the filter lets through; the comparison is exact, so case matters. */
  const ImageExtensions: set<string> := {".png", ".jpg", ".jpeg"}

  /** What the filter tells the upload middleware. */
  datatype Verdict = Accept | Reject(error: Error)

  const OnlyImages := HttpError(400, "Only images are allowed")

  /** The `fileFilter` callback, applied to the client's original file name: it accepts exactly the
      image extensions and rejects everything else with a 400. */
  function FileFilter(originalName: string): (v: Verdict)
    ensures v == Accept <==> ExtName(originalName) in ImageExtensions
    ensures v != Accept ==> v == Reject(HttpError(400, "Only images are allowed"))
  {
    var ext := ExtName(originalName);
    if ext != ".png" && ext != ".jpg" && ext != ".jpeg" then Reject(OnlyImages) else Accept
  }

  /** The directory part of a name does not matter to the filter. */
  lemma DirectoryIgnored(dir: string, name: string)
    requires name != [] && '/' !in name
    ensures FileFilter(dir + "/" + name) == FileFilter(name)
  {
    BaseNameUnderDirectory(dir, name);
    assert name[|name| - 1] in name;
    assert TrimTrailingSlashes(name) == name;
    assert BaseName(name) == name;
  }

  /** The extension of `stem + ext` is `ext` when `ext` is a `.` followed by a non-empty word with no
      dot or slash in it and the stem is a non-empty name with no slash: only the last extension
      counts, whatever dots the stem holds. */
  lemma {:induction false} LastExtensionCounts(stem: string, ext: string)
    requires stem != "" && '/' !in stem
    requires |ext| >= 2 && ext[0] == '.' && '.' !in ext[1..] && '/' !in ext
    ensures ExtName(stem + ext) == ext
  {
    var name := stem + ext;
    assert name[|name| - 1] == ext[|ext| - 1];
    assert TrimTrailingSlashes(name) == name;
    assert '/' !in name by {
      forall k | 0 <= k < |name| ensures name[k] != '/' {
        if k < |stem| { assert name[k] == stem[k]; }
        else { assert name[k] == ext[k - |stem|]; }
      }
    }
    assert BaseName(name) == name;
    assert ext == "." + ext[1..];
    assert name == stem + "." + ext[1..];
    DotBeforeWord(stem, ext[1..]);
    assert name[|stem|..] == ext;
  }

  /** The last `.` of `stem.e` is the one before `e`. */
  lemma {:induction false} DotBeforeWord(stem: string, e: string)
    requires '.' !in e
    ensures LastIndexOf(stem + "." + e, '.') == Some(|stem|)
  {
    var name := stem + "." + e;
    if e == [] {
      assert name[|name| - 1] == '.';
    } else {
      var w := e[..|e| - 1];
      assert name[..|name| - 1] == stem + "." + w;
      assert name[|name| - 1] == e[|e| - 1];
      assert '.' !in w by {
        forall k | 0 <= k < |w| ensures w[k] != '.' { assert w[k] == e[k]; }
      }
      DotBeforeWord(stem, w);
    }
  }

  /** `photo.png`, `photo.jpg` and `photo.jpeg` are accepted for every plain stem. */
  lemma ImagesAccepted(stem: string)
    requires stem != "" && '/' !in stem
    ensures FileFilter(stem + ".png") == Accept
    ensures FileFilter(stem + ".jpg") == Accept
    ensures FileFilter(stem + ".jpeg") == Accept
  {
    LastExtensionCounts(stem, ".png");
    LastExtensionCounts(stem, ".jpg");
    LastExtensionCounts(stem, ".jpeg");
  }

  /** Any other last extension is rejected, including the upper-case spellings of the accepted ones. */
  lemma OtherExtensionsRejected(stem: string, ext: string)
    requires stem != "" && '/' !in stem
    requires |ext| >= 2 && ext[0] == '.' && '.' !in ext[1..] && '/' !in ext
    requires ext !in ImageExtensions
    ensures FileFilter(stem + ext) == Reject(OnlyImages)
  {
    LastExtensionCounts(stem, ext);
  }

  /** A plain name without any dot has no extension and is rejected. */
  lemma NoExtensionRejected(name: string)
    requires '.' !in name && '/' !in name
    ensures ExtName(name) == ""
    ensures FileFilter(name) == Reject(OnlyImages)
  {
  }

  /** A picture whose name carries a second extension before the image one is accepted. */
  lemma DoubleExtensionAccepted()
    ensures FileFilter("a.exe.png") == Accept
  {
    var stem, name := "a.exe", "a.exe.png";
    assert name == stem + ".png";
    ImagesAccepted(stem);
  }

  /** An image extension followed by another one is rejected. */
  lemma ImageThenOtherRejected()
    ensures FileFilter("a.png.exe") == Reject(OnlyImages)
  {
  }

  /** The comparison is case-sensitive. */
  lemma UpperCaseRejected()
    ensures FileFilter("a.PNG") == Reject(OnlyImages)
    ensures FileFilter("a.JPG") == Reject(OnlyImages)
  {
    assert "a" + ".PNG" == "a.PNG";
    assert ".PNG" !in ImageExtensions;
    OtherExtensionsRejected("a", ".PNG");
    assert "a" + ".JPG" == "a.JPG";
    assert ".JPG" !in ImageExtensions;
    OtherExtensionsRejected("a", ".JPG");
  }

  /** A dot-file named like an extension has no extension and is rejected. */
  lemma DotFileRejected()
    ensures FileFilter(".png") == Reject(OnlyImages)
  {
  }
}
