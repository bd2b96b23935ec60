/**
 * `ProblemSetLoader.load_problem_files` of the single-query runner: choose the
 * file pattern for an experiment type, list the matching problem files of the
 * problem directory in sorted order, and return each file's name and text.
 */
module ProblemLoader {
  import opened Text
  import opened FileSystem

  /** The two exceptions the loader raises. */
  datatype LoadError =
    | InvalidExperimentType(experimentType: string)  // ValueError
    | NoProblemFiles(pattern: string)                 // FileNotFoundError

  /** One `{'filename': ..., 'content': ...}` entry. */
  datatype ProblemFile = ProblemFile(filename: string, content: string)

  /** The shell pattern for an experiment type: `"100"` and `"24"` are the only ones known. */
  function PatternFor(experimentType: string): (r: Result<string, LoadError>)
    ensures r.Ok? <==> experimentType in {"100", "24"}
    ensures r.Ok? ==> r.value == "*" + experimentType + "*part*.md"
    ensures r.Err? ==> r.error == InvalidExperimentType(experimentType)
  {
    if experimentType == "100" then Ok("*100*part*.md")
    else if experimentType == "24" then Ok("*24*part*.md")
    else Err(InvalidExperimentType(experimentType))
  }

  /** The entries for a list of paths, in that order. */
  function Entries(fs: Files, paths: seq<string>): (r: seq<ProblemFile>)
    requires forall p :: p in paths ==> p in fs
    ensures |r| == |paths|
    ensures forall i :: 0 <= i < |paths| ==> r[i] == ProblemFile(Basename(paths[i]), fs[paths[i]])
    ensures forall i :: 0 <= i < |paths| ==> '/' !in r[i].filename && |r[i].filename| <= |paths[i]| && r[i].filename == paths[i][|paths[i]| - |r[i].filename|..]
  {
    seq(|paths|, i requires 0 <= i < |paths| => ProblemFile(Basename(paths[i]), fs[paths[i]]))
  }

  /** What `load_problem_files` returns or raises. */
  ghost function Loaded(fs: Files, dir: string, experimentType: string): Result<seq<ProblemFile>, LoadError> {
    match PatternFor(experimentType)
    case Err(e) => Err(e)
    case Ok(pattern) =>
      var matched := Glob(fs, dir, pattern);
      if matched == {} then Err(NoProblemFiles(pattern))
      else Ok(Entries(fs, SortedPaths(matched)))
  }

  /** `load_problem_files`: the files are read in sorted path order and appended one at a time. */
  method LoadProblemFiles(fs: Files, dir: string, experimentType: string) returns (r: Result<seq<ProblemFile>, LoadError>)
    ensures r == Loaded(fs, dir, experimentType)
  {
    var pattern := PatternFor(experimentType);
    if pattern.Err? {
      return Err(pattern.error);
    }
    var matched := Glob(fs, dir, pattern.value);
    var problemFiles := SortPaths(matched);
    ListingEmpty(problemFiles, matched);
    if |problemFiles| == 0 {
      return Err(NoProblemFiles(pattern.value));
    }
    var contents := ReadEntries(fs, problemFiles);
    return Ok(contents);
  }

  /** The loop that reads each listed file and appends its entry. */
  method ReadEntries(fs: Files, paths: seq<string>) returns (contents: seq<ProblemFile>)
    requires forall p :: p in paths ==> p in fs
    ensures contents == Entries(fs, paths)
  {
    contents := [];
    var i := 0;
    while i < |paths|
      invariant 0 <= i <= |paths|
      invariant |contents| == i
      invariant forall k :: 0 <= k < i ==> contents[k] == ProblemFile(Basename(paths[k]), fs[paths[k]])
    {
      var path := paths[i];
      contents := contents + [ProblemFile(Basename(path), fs[path])];
      i := i + 1;
    }
  }

  /** A listing of a set is empty exactly when the set is. */
  lemma ListingEmpty(r: seq<string>, s: set<string>)
    requires forall x :: x in r <==> x in s
    ensures r == [] <==> s == {}
  {
    if r != [] {
      assert r[0] in s;
    }
    if s != {} {
      var m :| m in s;
      assert m in r;
    }
  }

  /** An unknown experiment type is rejected whatever the directory holds: no file is looked at first. */
  lemma UnknownTypeRejected(fs: Files, dir: string, experimentType: string)
    requires experimentType != "100" && experimentType != "24"
    ensures Loaded(fs, dir, experimentType) == Err(InvalidExperimentType(experimentType))
  {
  }

  /** An empty match is an error, never an empty list. */
  lemma NeverEmpty(fs: Files, dir: string, experimentType: string)
    ensures Loaded(fs, dir, experimentType).Ok? ==> |Loaded(fs, dir, experimentType).value| > 0
    ensures experimentType in {"100", "24"} && Glob(fs, dir, "*" + experimentType + "*part*.md") == {} ==>
      Loaded(fs, dir, experimentType) == Err(NoProblemFiles("*" + experimentType + "*part*.md"))
  {
    var pattern := PatternFor(experimentType);
    if pattern.Ok? {
      var matched := Glob(fs, dir, pattern.value);
      if matched != {} {
        var m :| m in matched;
        assert m in SortedPaths(matched);
      }
    }
  }

  /**
   * Each entry is one matched file: the list runs over the matches in strictly
   * increasing path order, each match once, and every entry's name is the
   * file's name in the directory and its content the file's text unchanged.
   */
  lemma LoadedEntries(fs: Files, dir: string, experimentType: string)
    requires Loaded(fs, dir, experimentType).Ok?
    ensures var pattern := "*" + experimentType + "*part*.md";
      var matched := Glob(fs, dir, pattern);
      var es := Loaded(fs, dir, experimentType).value;
      exists paths: seq<string> ::
        && StrictlySorted(paths)
        && (forall p :: p in paths <==> p in matched)
        && |es| == |paths|
        && forall i :: 0 <= i < |paths| ==>
             && FnMatch(es[i].filename, pattern)
             && paths[i] == JoinPath(dir, es[i].filename)
             && es[i].content == fs[paths[i]]
  {
    var pattern := "*" + experimentType + "*part*.md";
    var matched := Glob(fs, dir, pattern);
    var paths := SortedPaths(matched);
    var es := Loaded(fs, dir, experimentType).value;
    forall i | 0 <= i < |paths|
      ensures FnMatch(es[i].filename, pattern) && paths[i] == JoinPath(dir, es[i].filename)
    {
      assert paths[i] in matched;
      InDirName(paths[i], dir);
    }
  }
}
