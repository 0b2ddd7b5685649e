/**
 * The two System.IO.Path helpers the core relies on: GetFileName (the file-name converter)
 * and GetExtension (the renderers' choice of skeleton loader).
 */
module Paths {

  /** The characters Path treats as directory separators on Windows: '\' and the alternative '/'. */
  predicate IsDirectorySeparator(c: char) {
    c == '\\' || c == '/'
  }

  predicate HasNoSeparator(s: string) {
    forall i :: 0 <= i < |s| ==> !IsDirectorySeparator(s[i])
  }

  /**
   * Path.GetFileName: the text after the last directory separator, or the whole path when it
   * has none. The three ensures determine the result: a separator-free suffix that is either
   * the whole path or directly preceded by a separator.
   */
  function GetFileName(path: string): (name: string)
    ensures |name| <= |path| && name == path[|path| - |name|..]
    ensures HasNoSeparator(name)
    ensures |name| < |path| ==> IsDirectorySeparator(path[|path| - |name| - 1])
  {
    if |path| == 0 then ""
    else if IsDirectorySeparator(path[|path| - 1]) then ""
    else
      var init := path[..|path| - 1];
      var rest := GetFileName(init);
      assert init[|init| - |rest|..] + [path[|path| - 1]] == path[|path| - |rest| - 1..];
      rest + [path[|path| - 1]]
  }

  /** A path without separators is its own file name. */
  lemma {:induction false} GetFileNameOfPlainName(s: string)
    requires HasNoSeparator(s)
    ensures GetFileName(s) == s
  {
    if |s| > 0 {
      var init := s[..|s| - 1];
      assert HasNoSeparator(init) by {
        forall i | 0 <= i < |init| ensures !IsDirectorySeparator(init[i]) {
          assert init[i] == s[i];
        }
      }
      GetFileNameOfPlainName(init);
      assert init + [s[|s| - 1]] == s;
    }
  }

  /** Taking the file name twice gives the same file name. */
  lemma GetFileNameIdempotent(path: string)
    ensures GetFileName(GetFileName(path)) == GetFileName(path)
  {
    GetFileNameOfPlainName(GetFileName(path));
  }

  /**
   * Path.GetExtension: scanning back from the end, the text from the last '.' to the end, unless
   * a separator comes first (no extension) or the '.' is the last character (empty extension).
   */
  function GetExtension(path: string): (ext: string)
    ensures ext == "" || (2 <= |ext| <= |path| && ext == path[|path| - |ext|..] && ext[0] == '.')
    ensures forall i :: 0 < i < |ext| ==> ext[i] != '.' && !IsDirectorySeparator(ext[i])
  {
    ScanExtension(path, |path|)
  }

  /** The backward scan of GetExtension over path[..i]; path[i..] holds no '.' and no separator. */
  function ScanExtension(path: string, i: nat): (ext: string)
    requires i <= |path|
    requires forall k :: i <= k < |path| ==> path[k] != '.' && !IsDirectorySeparator(path[k])
    ensures ext == "" || (2 <= |ext| <= |path| && ext == path[|path| - |ext|..] && ext[0] == '.')
    ensures forall k :: 0 < k < |ext| ==> ext[k] != '.' && !IsDirectorySeparator(ext[k])
    decreases i
  {
    if i == 0 then ""
    else if path[i - 1] == '.' then (if i - 1 != |path| - 1 then path[i - 1..] else "")
    else if IsDirectorySeparator(path[i - 1]) then ""
    else ScanExtension(path, i - 1)
  }

  /** The backward scan stops at the '.' at d when nothing between d and i is a '.' or a separator. */
  lemma {:induction false} ScanFindsDot(path: string, i: nat, d: nat)
    requires d < i <= |path| && d < |path| - 1 && path[d] == '.'
    requires forall k :: d < k < |path| ==> path[k] != '.' && !IsDirectorySeparator(path[k])
    ensures ScanExtension(path, i) == path[d..]
    decreases i
  {
    if i - 1 != d {
      ScanFindsDot(path, i - 1, d);
    }
  }

  /**
   * A '.' that is not the last character and is followed by no '.' and no separator starts the
   * extension: together with GetExtension's own ensures, the extension is non-empty exactly then.
   */
  lemma ExtensionFromLastDot(path: string, d: nat)
    requires d < |path| - 1 && path[d] == '.'
    requires forall k :: d < k < |path| ==> path[k] != '.' && !IsDirectorySeparator(path[k])
    ensures GetExtension(path) == path[d..]
  {
    ScanFindsDot(path, |path|, d);
  }

  predicate EndsWith(s: string, suffix: string) {
    |suffix| <= |s| && s[|s| - |suffix|..] == suffix
  }

  /**
   * The extension is exactly ".json" iff the path ends with ".json": the comparison is
   * case-sensitive, so "a.JSON" or "a.json.bak" do not qualify.
   */
  lemma JsonExtensionIffSuffix(path: string)
    ensures GetExtension(path) == ".json" <==> EndsWith(path, ".json")
  {
    var n := |path|;
    if GetExtension(path) == ".json" {
      assert path[n - 5..] == ".json";
    }
    if EndsWith(path, ".json") {
      var tail := path[n - 5..];
      assert tail == ".json";
      assert path[n - 5] == tail[0] == '.';
      assert path[n - 4] == tail[1] && path[n - 3] == tail[2] && path[n - 2] == tail[3] && path[n - 1] == tail[4];
      assert ScanExtension(path, n - 4) == tail;
      assert ScanExtension(path, n - 3) == tail;
      assert ScanExtension(path, n - 2) == tail;
      assert ScanExtension(path, n - 1) == tail;
      assert ScanExtension(path, n) == tail;
    }
  }
}
