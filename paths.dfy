/** The two path functions that destination resolution uses (Python's `os.path.basename`
    and `os.path.join` on POSIX). */
module Paths {

  type Path = string

  /** What follows the last '/' of `p` (all of `p` if it has none). */
  function Basename(p: Path): (b: Path)
    ensures '/' !in b
    ensures |b| <= |p|
    decreases |p|
  {
    if p == [] || p[|p| - 1] == '/' then [] else Basename(p[..|p| - 1]) + [p[|p| - 1]]
  }

  /** The basename is the last component: a suffix of the path that, when shorter than
      the path, starts right after a '/'. */
  lemma {:induction false} BasenameAfterLastSeparator(p: Path)
    ensures Basename(p) == p[|p| - |Basename(p)|..]
    ensures |Basename(p)| < |p| ==> p[|p| - |Basename(p)| - 1] == '/'
    decreases |p|
  {
    if p != [] && p[|p| - 1] != '/' {
      var init, last := p[..|p| - 1], p[|p| - 1];
      BasenameAfterLastSeparator(init);
      assert Basename(p) == Basename(init) + [last];
      assert p[|p| - |Basename(p)|..] == init[|init| - |Basename(init)|..] + [last];
    }
  }

  /** `name` appended to `dir` with one separator, unless `name` is absolute. */
  function Join(dir: Path, name: Path): (r: Path)
  {
    if |name| > 0 && name[0] == '/' then name
    else if dir == [] || dir[|dir| - 1] == '/' then dir + name
    else dir + "/" + name
  }

  /** `p` is `dir` itself or lies below it (shutil's test for moving a directory into
      itself). */
  predicate Within(p: Path, dir: Path)
  {
    p == dir || (|dir| < |p| && p[..|dir|] == dir && p[|dir|] == '/')
  }

  /** A name without separators that follows a separator (or nothing) is the basename. */
  lemma {:induction false} BasenameAfterSeparator(head: Path, name: Path)
    requires head == [] || head[|head| - 1] == '/'
    requires '/' !in name
    ensures Basename(head + name) == name
    decreases |name|
  {
    if name == [] {
      assert head + name == head;
    } else {
      var init, last, path := name[..|name| - 1], name[|name| - 1], head + name;
      assert path[..|path| - 1] == head + init;
      assert path[|path| - 1] == last && last != '/';
      BasenameAfterSeparator(head, init);
      assert Basename(path) == Basename(head + init) + [last];
      assert init + [last] == name;
    }
  }

  /** Joining a directory with a plain name gives a path inside the directory whose
      basename is that name. */
  lemma JoinPlainName(dir: Path, name: Path)
    requires '/' !in name
    ensures Basename(Join(dir, name)) == name
    ensures |dir| <= |Join(dir, name)| && Join(dir, name)[..|dir|] == dir
  {
    if dir == [] || dir[|dir| - 1] == '/' {
      BasenameAfterSeparator(dir, name);
    } else {
      assert dir + "/" + name == (dir + "/") + name;
      BasenameAfterSeparator(dir + "/", name);
    }
  }
}
