/**
  The last element of a slash-separated path, as Go's `filepath.Base` computes
  it on Unix: trailing slashes are dropped, the text after the last remaining
  slash is the answer, an empty path gives "." and a path of slashes only
  gives "/". The plugin uses it to print its own executable name.
 */
module Paths {

  predicate AllSlashes(s: string) {
    forall i :: 0 <= i < |s| ==> s[i] == '/'
  }

  predicate NoSlash(s: string) {
    forall i :: 0 <= i < |s| ==> s[i] != '/'
  }

  /** `s` without its trailing slashes. */
  function TrimTrailingSlashes(s: string): (r: string)
    ensures |r| <= |s| && r == s[..|r|]
    ensures AllSlashes(s[|r|..])
    ensures r == "" || r[|r| - 1] != '/'
  {
    if |s| > 0 && s[|s| - 1] == '/' then TrimTrailingSlashes(s[..|s| - 1]) else s
  }

  /** The text after the last slash of `s` (all of `s` when it has none). */
  function AfterLastSlash(s: string): (r: string)
    ensures |r| <= |s| && r == s[|s| - |r|..]
    ensures NoSlash(r)
    ensures |r| == |s| || s[|s| - |r| - 1] == '/'
  {
    if |s| == 0 || s[|s| - 1] == '/' then ""
    else AfterLastSlash(s[..|s| - 1]) + [s[|s| - 1]]
  }

  /** `r` is a whole path element of `path` that ends at index `e`, and only slashes follow it. */
  predicate FinalElementAt(path: string, r: string, e: int) {
    && |r| <= e <= |path|
    && path[e - |r|..e] == r
    && (e == |r| || path[e - |r| - 1] == '/')
    && AllSlashes(path[e..])
  }

  function Base(path: string): (r: string)
    ensures r != ""
    ensures path == "" ==> r == "."
    ensures path != "" && AllSlashes(path) ==> r == "/"
    ensures !AllSlashes(path) ==> NoSlash(r) && exists e :: FinalElementAt(path, r, e)
  {
    if path == "" then "."
    else
      var t := TrimTrailingSlashes(path);
      var b := AfterLastSlash(t);
      if b == "" then
        assert t == "";
        assert path[|t|..] == path;
        "/"
      else
        assert FinalElementAt(path, b, |t|);
        b
  }

  /** A bare program name is its own base name. */
  lemma BaseOfName(name: string)
    requires name != "" && NoSlash(name)
    ensures Base(name) == name
  {
    AfterLastSlashOfName(name);
  }

  /** An executable started through a directory path is reported by its file name alone. */
  lemma {:induction false} BaseOfJoin(dir: string, name: string)
    requires name != "" && NoSlash(name)
    ensures Base(dir + "/" + name) == name
  {
    var p := dir + "/" + name;
    assert p[|p| - 1] == name[|name| - 1];
    assert TrimTrailingSlashes(p) == p;
    AfterLastSlashOfJoin(dir, name);
  }

  lemma {:induction false} AfterLastSlashOfName(name: string)
    requires NoSlash(name)
    ensures AfterLastSlash(name) == name
  {
    if name != "" {
      AfterLastSlashOfName(name[..|name| - 1]);
      assert name == name[..|name| - 1] + [name[|name| - 1]];
    }
  }

  lemma {:induction false} AfterLastSlashOfJoin(dir: string, name: string)
    requires NoSlash(name)
    ensures AfterLastSlash(dir + "/" + name) == name
  {
    var p := dir + "/" + name;
    if name == "" {
      assert p[|p| - 1] == '/';
    } else {
      var init := name[..|name| - 1];
      assert p[..|p| - 1] == dir + "/" + init;
      AfterLastSlashOfJoin(dir, init);
      assert name == init + [name[|name| - 1]];
    }
  }
}
