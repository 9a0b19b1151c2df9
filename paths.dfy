/** The parts of Node's `path` module the core relies on, for POSIX paths:
    `basename`, `extname` and `join`. */
module Paths {

  /** Index of the last occurrence of `c` in `s`, or -1. */
  function LastIndexOf(s: string, c: char): (k: int)
    ensures -1 <= k < |s|
    ensures k >= 0 ==> s[k] == c
    ensures forall i :: k < i < |s| ==> s[i] != c
    decreases |s|
  {
    if s == [] then -1
    else if s[|s| - 1] == c then |s| - 1
    else LastIndexOf(s[..|s| - 1], c)
  }

  /** `path.basename(p)`: what follows the last `/`. */
  function Basename(p: string): (b: string)
    ensures forall i :: 0 <= i < |b| ==> b[i] != '/'
    ensures |b| <= |p| && b == p[|p| - |b|..]
  {
    p[LastIndexOf(p, '/') + 1..]
  }

  /** `path.extname(p)`: from the last dot of the base name to its end;
      empty when the base name has no dot, starts with its only dot, or is `..`. */
  function Extname(p: string): (e: string)
    ensures e != [] ==> e[0] == '.'
    ensures forall i :: 0 <= i < |e| ==> e[i] != '/' && (i > 0 ==> e[i] != '.')
    ensures |e| <= |p| && e == p[|p| - |e|..]
  {
    var b := Basename(p);
    var k := LastIndexOf(b, '.');
    if k <= 0 || b == ".." then []
    else b[k..]
  }

  /** A file `stem.ext` in a directory has extension `.ext` and base name `stem.ext`. */
  lemma ExtnameOfFile(dir: string, stem: string, ext: string)
    requires stem != [] && '/' !in stem
    requires ext != [] && '.' !in ext && '/' !in ext
    ensures Basename(dir + "/" + stem + "." + ext) == stem + "." + ext
    ensures Extname(dir + "/" + stem + "." + ext) == "." + ext
  {
    var p := dir + "/" + stem + "." + ext;
    var b := stem + "." + ext;
    assert p == (dir + "/") + b;
    assert LastIndexOf(p, '/') == |dir| by {
      assert p[|dir|] == '/';
      LastIndexOfAfter(p, '/', |dir|);
    }
    assert p[|dir| + 1..] == b;
    assert b[|stem|] == '.';
    LastIndexOfAfter(b, '.', |stem|);
  }

  /** A bare file name `stem.ext` is its own base name, with extension `.ext`. */
  lemma ExtnameOfBareFile(stem: string, ext: string)
    requires stem != [] && '/' !in stem
    requires ext != [] && '.' !in ext && '/' !in ext
    ensures Basename(stem + "." + ext) == stem + "." + ext
    ensures Extname(stem + "." + ext) == "." + ext
  {
    var b := stem + "." + ext;
    assert '/' !in b;
    assert b[|stem|] == '.';
    LastIndexOfAfter(b, '.', |stem|);
  }

  /** An occurrence with none of the character after it is the last one. */
  lemma {:induction false} LastIndexOfAfter(s: string, c: char, k: int)
    requires 0 <= k < |s| && s[k] == c
    requires forall i :: k < i < |s| ==> s[i] != c
    ensures LastIndexOf(s, c) == k
    decreases |s|
  {
    if |s| - 1 != k {
      LastIndexOfAfter(s[..|s| - 1], c, k);
    }
  }

  /** `path.join(a, b, …)` on segments that need no normalisation: the
      non-empty segments separated by `/`. */
  function Join(parts: seq<string>): (p: string)
    ensures parts == [] ==> p == []
    decreases |parts|
  {
    if parts == [] then []
    else if |parts| == 1 then parts[0]
    else
      var rest := Join(parts[1..]);
      if parts[0] == [] then rest
      else if rest == [] then parts[0]
      else parts[0] + "/" + rest
  }

  /** Joining onto a root keeps the root as a prefix, followed by a separator. */
  lemma JoinUnderRoot(root: string, parts: seq<string>)
    requires root != [] && Join(parts) != []
    ensures Join([root] + parts) == root + "/" + Join(parts)
  {
    assert ([root] + parts)[1..] == parts;
  }
}
