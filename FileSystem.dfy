/**
 * The part of the file system both problem loaders touch: a directory listing
 * filtered by a shell pattern (`glob.glob` on `<dir>/<pattern>`), Python's
 * `sorted` on the resulting paths, and `os.path.basename`.
 *
 * Files are a map from path to text. A path inside a directory is the
 * directory, a `/` and a name without `/`, as `pathlib`'s `/` operator writes it.
 */
module FileSystem {
  import opened Text

  /** Path to text content. */
  type Files = map<string, string>

  /** `str(Path(dir) / name)`. */
  function JoinPath(dir: string, name: string): (r: string)
    ensures |r| == |dir| + 1 + |name|
    ensures r[..|dir|] == dir && r[|dir|] == '/' && r[|dir| + 1..] == name
  {
    dir + "/" + name
  }

  /** `os.path.basename`: everything after the last `/`. */
  function Basename(path: string): (r: string)
    ensures |r| <= |path| && r == path[|path| - |r|..]
    ensures '/' !in r
    ensures |r| < |path| ==> path[|path| - |r| - 1] == '/'
  {
    match LastIndex(path, '/', |path|)
    case None => path
    case Some(i) => path[i + 1..]
  }

  lemma BasenameOfJoin(dir: string, name: string)
    requires '/' !in name
    ensures Basename(JoinPath(dir, name)) == name
  {
    var p := JoinPath(dir, name);
    assert forall k :: |dir| < k < |p| ==> p[k] == name[k - |dir| - 1];
    assert LastIndex(p, '/', |p|) == Some(|dir|);
  }

  // ---------------------------------------------------------------------------
  // Shell patterns

  /**
   * `fnmatch` for the patterns this code uses: `*` matches any run of
   * characters, every other character matches itself.
   */
  predicate FnMatch(name: string, pattern: string)
    decreases |pattern|, |name|
  {
    if pattern == [] then name == []
    else if pattern[0] == '*' then
      FnMatch(name, pattern[1..]) || (name != [] && FnMatch(name[1..], pattern))
    else name != [] && name[0] == pattern[0] && FnMatch(name[1..], pattern[1..])
  }

  /** `*` at the head of a pattern, followed by a literal `tail`, matches any name ending in `tail`. */
  lemma {:induction false} StarSuffix(name: string, tail: string)
    requires '*' !in tail
    ensures FnMatch(name, "*" + tail) <==> (|tail| <= |name| && name[|name| - |tail|..] == tail)
    decreases |name|
  {
    var pat := "*" + tail;
    assert pat[1..] == tail;
    LiteralMatch(name, tail);
    if name != [] {
      StarSuffix(name[1..], tail);
      if |tail| <= |name| - 1 {
        assert name[1..][|name| - 1 - |tail|..] == name[|name| - |tail|..];
      }
    }
  }

  /** A pattern without `*` matches exactly itself. */
  lemma {:induction false} LiteralMatch(name: string, pattern: string)
    requires '*' !in pattern
    ensures FnMatch(name, pattern) <==> name == pattern
    decreases |pattern|
  {
    if pattern != [] {
      assert pattern[0] in pattern;
      assert forall c :: c in pattern[1..] ==> c in pattern;
      if name != [] {
        LiteralMatch(name[1..], pattern[1..]);
        if name[0] == pattern[0] && name[1..] == pattern[1..] {
          assert name == [name[0]] + name[1..];
          assert pattern == [pattern[0]] + pattern[1..];
        }
      }
    }
  }

  /** A name `glob` lists: a `*` at the head of a pattern never matches a leading dot. */
  predicate Hidden(name: string) {
    name != [] && name[0] == '.'
  }

  /** The file `path` lies directly inside `dir`; its name is what follows the `/`. */
  predicate InDir(path: string, dir: string) {
    |path| > |dir| + 1 && path[..|dir|] == dir && path[|dir|] == '/' && '/' !in path[|dir| + 1..]
  }

  lemma InDirName(path: string, dir: string)
    requires InDir(path, dir)
    ensures path == JoinPath(dir, path[|dir| + 1..])
    ensures Basename(path) == path[|dir| + 1..]
  {
    assert path == dir + "/" + path[|dir| + 1..];
    BasenameOfJoin(dir, path[|dir| + 1..]);
  }

  /** `glob.glob(str(Path(dir) / pattern))`: the files directly in `dir` whose non-hidden name matches. */
  function Glob(fs: Files, dir: string, pattern: string): (r: set<string>)
    ensures forall p :: p in r <==> p in fs && InDir(p, dir) && FnMatch(p[|dir| + 1..], pattern) && !Hidden(p[|dir| + 1..])
  {
    set p | p in fs && InDir(p, dir) && FnMatch(p[|dir| + 1..], pattern) && !Hidden(p[|dir| + 1..])
  }

  // ---------------------------------------------------------------------------
  // Python's ordering of strings: by code point, a proper prefix first

  predicate StrLe(a: string, b: string) {
    a == [] || (b != [] && (a[0] < b[0] || (a[0] == b[0] && StrLe(a[1..], b[1..]))))
  }

  lemma {:induction false} StrLeTotal(a: string, b: string)
    ensures StrLe(a, b) || StrLe(b, a)
  {
    if a != [] && b != [] && a[0] == b[0] {
      StrLeTotal(a[1..], b[1..]);
    }
  }

  lemma {:induction false} StrLeAntisymmetric(a: string, b: string)
    requires StrLe(a, b) && StrLe(b, a)
    ensures a == b
  {
    if a != [] && b != [] {
      StrLeAntisymmetric(a[1..], b[1..]);
      assert a == [a[0]] + a[1..] && b == [b[0]] + b[1..];
    }
  }

  lemma {:induction false} StrLeTransitive(a: string, b: string, c: string)
    requires StrLe(a, b) && StrLe(b, c)
    ensures StrLe(a, c)
  {
    if a != [] && b != [] && c != [] && a[0] == b[0] && b[0] == c[0] {
      StrLeTransitive(a[1..], b[1..], c[1..]);
    }
  }

  /** Strictly increasing: what `sorted` returns for distinct paths. */
  predicate StrictlySorted(s: seq<string>) {
    forall i, j :: 0 <= i < j < |s| ==> StrLe(s[i], s[j]) && s[i] != s[j]
  }

  /** `m` is the least of `s`. */
  predicate Least(m: string, s: set<string>) {
    m in s && forall x :: x in s ==> StrLe(m, x)
  }

  /** A finite non-empty set of strings has a least element. */
  lemma {:induction false} HasLeast(s: set<string>)
    requires s != {}
    ensures exists m :: Least(m, s)
    decreases |s|
  {
    var y :| y in s;
    if s == {y} {
      StrLeTotal(y, y);
      assert Least(y, s);
    } else {
      var t := s - {y};
      HasLeast(t);
      var m :| Least(m, t);
      assert s == t + {y};
      LeastAdd(m, y, t);
    }
  }

  /** Adding `y` to a set with least `m` leaves the smaller of the two least. */
  lemma LeastAdd(m: string, y: string, t: set<string>)
    requires Least(m, t)
    ensures StrLe(m, y) ==> Least(m, t + {y})
    ensures !StrLe(m, y) ==> Least(y, t + {y})
  {
    StrLeTotal(m, y);
    StrLeTotal(y, y);
    if !StrLe(m, y) {
      forall x | x in t ensures StrLe(y, x) {
        StrLeTransitive(y, m, x);
      }
    }
  }

  /** Two strictly sorted sequences with the same elements are equal: `sorted` has one answer. */
  lemma {:induction false} SortedUnique(a: seq<string>, b: seq<string>)
    requires StrictlySorted(a) && StrictlySorted(b)
    requires forall x :: x in a <==> x in b
    ensures a == b
    decreases |a|
  {
    if a != [] && b != [] {
      assert a[0] in b;
      assert b[0] in a;
      var i :| 0 <= i < |b| && b[i] == a[0];
      var j :| 0 <= j < |a| && a[j] == b[0];
      assert StrLe(b[0], a[0]) by {
        if i > 0 {
        } else {
          StrLeTotal(b[0], a[0]);
        }
      }
      assert StrLe(a[0], b[0]) by {
        if j > 0 {
        } else {
          StrLeTotal(a[0], b[0]);
        }
      }
      StrLeAntisymmetric(a[0], b[0]);
      forall x ensures x in a[1..] <==> x in b[1..] {
        if x in a[1..] {
          var k :| 1 <= k < |a| && a[k] == x;
          assert x != a[0];
          assert x in b;
        }
        if x in b[1..] {
          var k :| 1 <= k < |b| && b[k] == x;
          assert x != b[0];
          assert x in a;
        }
      }
      SortedUnique(a[1..], b[1..]);
      assert a == [a[0]] + a[1..] && b == [b[0]] + b[1..];
    } else {
      SameElementsEmpty(a, b);
    }
  }

  lemma SameElementsEmpty(a: seq<string>, b: seq<string>)
    requires forall x :: x in a <==> x in b
    ensures a == [] <==> b == []
  {
    if a != [] {
      assert a[0] in b;
    }
    if b != [] {
      assert b[0] in a;
    }
  }

  /**
   * `sorted(paths)`: repeatedly takes the least remaining path. The result is
   * strictly increasing and holds exactly the given paths.
   */
  method SortPaths(paths: set<string>) returns (r: seq<string>)
    ensures StrictlySorted(r)
    ensures forall x :: x in r <==> x in paths
    ensures r == SortedPaths(paths)
  {
    r := [];
    var rest := paths;
    while rest != {}
      invariant StrictlySorted(r)
      invariant forall x :: x in r ==> x in paths && x !in rest
      invariant forall x :: x in paths ==> x in r || x in rest
      invariant rest <= paths
      invariant forall x, y :: x in r && y in rest ==> StrLe(x, y)
      decreases |rest|
    {
      HasLeast(rest);
      var m :| Least(m, rest);
      r := r + [m];
      rest := rest - {m};
    }
    SortedUnique(r, SortedPaths(paths));
  }

  /** The paths `sorted(glob.glob(...))` returns: the one strictly increasing listing of the set. */
  ghost function SortedPaths(paths: set<string>): (r: seq<string>)
    ensures StrictlySorted(r)
    ensures forall x :: x in r <==> x in paths
  {
    SortExists(paths);
    var r :| StrictlySorted(r) && (forall x :: x in r <==> x in paths);
    r
  }

  lemma {:induction false} SortExists(paths: set<string>)
    ensures exists r :: StrictlySorted(r) && (forall x :: x in r <==> x in paths)
    decreases |paths|
  {
    if paths == {} {
      assert StrictlySorted([]) && forall x :: x in [] <==> x in paths;
    } else {
      HasLeast(paths);
      var m :| Least(m, paths);
      SortExists(paths - {m});
      var t :| StrictlySorted(t) && (forall x :: x in t <==> x in paths - {m});
      var r := [m] + t;
      forall i, j | 0 <= i < j < |r| ensures StrLe(r[i], r[j]) && r[i] != r[j] {
        if i > 0 {
          assert r[i] == t[i - 1] && r[j] == t[j - 1];
        } else {
          assert r[j] == t[j - 1];
          assert r[j] in paths - {m};
        }
      }
      assert forall x :: x in r <==> x in paths;
      assert StrictlySorted(r) && (forall x :: x in r <==> x in paths);
    }
  }
}
