/**
 * `ProblemSetLoader.parse_markdown_file` and `load_all_problems` of the
 * evaluation runner. A bank is split at every `\n## Q<digits>.` marker the way
 * `re.split` with one capturing group splits it: the text before the first
 * marker, then for each marker its digits and the text up to the next marker.
 * Each section then yields a problem when it mentions `**Answer`: the problem
 * text is what comes before the first `**Answer`, the answer what follows the
 * first `**Answer<no colon>:**`, up to a `\n---` rule or the end.
 */
module MarkdownBank {
  import opened Text
  import opened QuestionMarkers
  import opened FileSystem

  /** The marker's fixed part: a marker only counts at the start of a line after the first. */
  const Lead: string := "\n## Q"

  lemma LeadIsGood()
    ensures GoodLead(Lead)
  {
    forall t | 1 <= t < |Lead| ensures Lead[t..] != Lead[..|Lead| - t] {
      assert Lead[t..][0] == Lead[t] != '\n';
      assert Lead[..|Lead| - t][0] == '\n';
    }
  }

  // ---------------------------------------------------------------------------
  // Problem text and answer text of one section

  const AnswerTag: string := "**Answer"
  const Rule: string := "\n---"

  /** `re.search(r'^(.*?)\*\*Answer', section)`: the stripped text before the first `**Answer`. */
  function ProblemText(section: string): (r: Option<string>)
    ensures r.None? <==> !Contains(section, AnswerTag)
  {
    match FindFrom(section, AnswerTag, 0)
    case None => None
    case Some(a) => Some(Strip(section[..a]))
  }

  /** The problem text never contains the answer tag: it stops before the first one. */
  lemma ProblemTextClean(section: string)
    requires Contains(section, AnswerTag)
    ensures !Contains(ProblemText(section).value, AnswerTag)
  {
    var a := FindFrom(section, AnswerTag, 0).value;
    FindFromWindow(section, AnswerTag, 0, a);
    NoOccurrenceInWindow(section, AnswerTag, 0, a);
    StripNotContains(section[..a], AnswerTag);
  }

  /**
   * `re.search(r'\*\*Answer[^:]*:\*\*(.*?)(?=\n---|\Z)', section)` tried from
   * `from` on. At an `**Answer` found at `a`, `[^:]*:` can only end at the first
   * colon from `a + 8`, so the match there needs that colon to be followed by
   * `**`; otherwise the search moves on to the next `**Answer`. The captured
   * text runs to the first `\n---` or the end and is stripped.
   */
  function AnswerFrom(section: string, from: nat): (r: Option<string>)
    ensures r.Some? ==> !Contains(r.value, Rule)
    decreases |section| - from
  {
    match FindFrom(section, AnswerTag, from)
    case None => None
    case Some(a) =>
      match FindFrom(section, ":", a + |AnswerTag|)
      case None => None
      case Some(c) =>
        if OccursAt(section, ":**", c) then
          var start := c + 3;
          var stop := AnswerEnd(section, start);
          CaptureClean(section, start);
          Some(Strip(section[start..stop]))
        else AnswerFrom(section, a + 1)
  }

  /** Where the lazy capture stops: the first `\n---` from `start`, or the end. */
  function AnswerEnd(section: string, start: nat): (stop: nat)
    requires start <= |section|
    ensures start <= stop <= |section|
    ensures stop == |section| || OccursAt(section, Rule, stop)
  {
    match FindFrom(section, Rule, start)
    case None => |section|
    case Some(q) => q
  }

  /** The stripped capture from `start` to where the lazy match stops holds no rule. */
  lemma CaptureClean(section: string, start: nat)
    requires start <= |section|
    ensures !Contains(Strip(section[start..AnswerEnd(section, start)]), Rule)
  {
    var stop := AnswerEnd(section, start);
    FindFromWindow(section, Rule, start, stop);
    NoOccurrenceInWindow(section, Rule, start, stop);
    StripNotContains(section[start..stop], Rule);
  }

  /** The answer, `""` when the pattern is absent. */
  function AnswerText(section: string): (r: string)
    ensures AnswerFrom(section, 0).None? ==> r == ""
  {
    match AnswerFrom(section, 0)
    case None => ""
    case Some(text) => text
  }

  /** The answer never runs past a `\n---` rule. */
  lemma AnswerTextClean(section: string)
    ensures !Contains(AnswerText(section), Rule)
  {
  }

  /** One problem record: `file`, `question_num`, `problem`, `answer`. */
  datatype Problem = Problem(file: string, questionNum: nat, problem: string, answer: string)

  /** The problem one section yields, if any. */
  function ParseSection(file: string, digits: string, section: string): (r: Option<Problem>)
    requires AllDigits(digits)
    ensures r.Some? ==> r.value.file == file && r.value.questionNum == ParseDigits(digits)
  {
    match ProblemText(section)
    case None => None
    case Some(text) => Some(Problem(file, ParseDigits(digits), text, AnswerText(section)))
  }

  /**
   * A section makes a problem exactly when it mentions `**Answer`; the problem
   * text then holds no `**Answer` and the answer no `\n---` rule.
   */
  lemma ParseSectionSpec(file: string, digits: string, section: string)
    requires AllDigits(digits)
    ensures ParseSection(file, digits, section).Some? <==> Contains(section, AnswerTag)
    ensures ParseSection(file, digits, section).Some? ==>
      && !Contains(ParseSection(file, digits, section).value.problem, AnswerTag)
      && !Contains(ParseSection(file, digits, section).value.answer, Rule)
  {
    if Contains(section, AnswerTag) {
      ProblemTextClean(section);
      AnswerTextClean(section);
    }
  }

  function OptionToSeq<T>(o: Option<T>): (r: seq<T>)
    ensures |r| <= 1
  {
    match o
    case None => []
    case Some(x) => [x]
  }

  /** The loop `for i in range(1, len(parts), 2): if i + 1 < len(parts): ...` from position `i` on. */
  function ParseParts(file: string, parts: seq<string>, i: nat): (r: seq<Problem>)
    requires GroupsFrom(parts, i)
    decreases |parts| - i
  {
    if i >= |parts| then []
    else
      var here := if i + 1 < |parts| then OptionToSeq(ParseSection(file, parts[i], parts[i + 1])) else [];
      here + ParseParts(file, parts, i + 2)
  }

  /** `parse_markdown_file` on a file called `file` with text `content`. */
  function ParseMarkdown(file: string, content: string): seq<Problem> {
    SplitDigits(Lead, content);
    var parts := ReSplit(Lead, content);
    if |parts| > 1 then ParseParts(file, parts, 1) else []
  }

  /** `parse_markdown_file`: the loop over the split pieces, appending one problem per section that has an answer. */
  method ParseMarkdownFile(fs: Files, filePath: string) returns (problems: seq<Problem>)
    requires filePath in fs
    ensures problems == ParseMarkdown(Basename(filePath), fs[filePath])
  {
    var content := fs[filePath];
    var file := Basename(filePath);
    SplitDigits(Lead, content);
    var sections := ReSplit(Lead, content);
    problems := [];
    if |sections| > 1 {
      problems := ParseSections(file, sections);
    }
  }

  lemma ParseStep(file: string, parts: seq<string>, i: nat)
    requires GroupsFrom(parts, i) && i < |parts|
    ensures GroupsFrom(parts, i + 2)
    ensures ParseParts(file, parts, i) ==
      (if i + 1 < |parts| then OptionToSeq(ParseSection(file, parts[i], parts[i + 1])) else []) + ParseParts(file, parts, i + 2)
  {
  }

  /** The loop of `parse_markdown_file`: pairs of digits and text from position 1 on, two at a time. */
  method ParseSections(file: string, sections: seq<string>) returns (problems: seq<Problem>)
    requires GroupsFrom(sections, 1)
    ensures problems == ParseParts(file, sections, 1)
  {
    problems := [];
    var i := 1;
    while i < |sections|
      invariant 1 <= i <= |sections| + 1 && GroupsFrom(sections, i)
      invariant problems + ParseParts(file, sections, i) == ParseParts(file, sections, 1)
      decreases |sections| - i
    {
      ParseStep(file, sections, i);
      ghost var before := problems;
      ghost var here: seq<Problem> := [];
      if i + 1 < |sections| {
        var p := ParseSection(file, sections[i], sections[i + 1]);
        here := OptionToSeq(p);
        if p.Some? {
          problems := problems + [p.value];
        }
        assert problems == before + here;
      }
      LoopStep(before, here, ParseParts(file, sections, i + 2), ParseParts(file, sections, 1), problems);
      i := i + 2;
    }
  }

  // ---------------------------------------------------------------------------
  // What the parse keeps

  /** The problems a layout of sections yields: one per section that mentions `**Answer`, in order. */
  function Problems(file: string, secs: seq<Section>): seq<Problem>
    requires WellFormed(Lead, secs)
  {
    if secs == [] then []
    else OptionToSeq(ParseSection(file, secs[0].digits, secs[0].body)) + Problems(file, secs[1..])
  }

  /** The pieces of a layout carry each section's digits at an even position. */
  lemma {:induction false} FlattenDigits(secs: seq<Section>)
    requires WellFormed(Lead, secs)
    ensures GroupsFrom(Flatten(secs), 0)
    decreases |secs|
  {
    if secs != [] {
      var flat := Flatten(secs);
      FlattenDigits(secs[1..]);
      assert flat[2..] == Flatten(secs[1..]);
      GroupsShift(flat, Flatten(secs[1..]), 2, 0);
    }
  }

  lemma {:induction false} ParseFlatten(file: string, pre: string, secs: seq<Section>)
    requires WellFormed(Lead, secs)
    ensures GroupsFrom([pre] + Flatten(secs), 1)
    ensures ParseParts(file, [pre] + Flatten(secs), 1) == Problems(file, secs)
    decreases |secs|
  {
    var parts := [pre] + Flatten(secs);
    FlattenDigits(secs);
    assert parts[1..] == Flatten(secs);
    GroupsShift(parts, Flatten(secs), 1, 0);
    if secs != [] {
      var rest := [pre] + Flatten(secs[1..]);
      assert parts == [pre, secs[0].digits, secs[0].body] + Flatten(secs[1..]);
      ParseFlatten(file, pre, secs[1..]);
      ParseOffset(file, parts, rest, 3);
    }
  }

  /** Dropping one section's two pieces from the front shifts the loop by two. */
  lemma {:induction false} ParseOffset(file: string, parts: seq<string>, rest: seq<string>, i: nat)
    requires |parts| >= 3 && |rest| >= 1 && i >= 3
    requires GroupsFrom(parts, i) && GroupsFrom(rest, i - 2)
    requires parts[3..] == rest[1..]
    ensures ParseParts(file, parts, i) == ParseParts(file, rest, i - 2)
    decreases |parts| - i
  {
    if i < |parts| {
      assert parts[i] == parts[3..][i - 3] == rest[i - 2];
      if i + 1 < |parts| {
        assert parts[i + 1] == parts[3..][i - 2] == rest[i - 1];
      }
      ParseOffset(file, parts, rest, i + 2);
    }
  }

  /**
   * The preamble is discarded and every section is parsed on its own, in
   * document order: a bank laid out as a marker-free preamble and well-formed
   * sections parses to the sections' problems.
   */
  lemma ParseLayout(file: string, pre: string, secs: seq<Section>)
    requires WellFormed(Lead, secs) && NoMarker(pre, Lead)
    ensures ParseMarkdown(file, Layout(Lead, pre, secs)) == Problems(file, secs)
  {
    LeadIsGood();
    SplitLayout(Lead, pre, secs);
    ParseFlatten(file, pre, secs);
  }

  /** Every bank has that layout, so every bank parses to the problems of its sections, in document order. */
  lemma ParseAny(file: string, content: string) returns (pre: string, secs: seq<Section>)
    ensures NoMarker(pre, Lead) && WellFormed(Lead, secs) && content == Layout(Lead, pre, secs)
    ensures ParseMarkdown(file, content) == Problems(file, secs)
  {
    pre, secs := Decompose(Lead, content);
    ParseLayout(file, pre, secs);
  }

  /** A bank without a recognised marker yields no problems. */
  lemma NoMarkerNoProblems(file: string, content: string)
    requires NoMarker(content, Lead)
    ensures ParseMarkdown(file, content) == []
  {
  }

  /**
   * `p` is the problem of section `sec` of `file`: its number is the value of
   * the section's digits, its problem and answer texts are those of the
   * section's own text, which mentions `**Answer`.
   */
  predicate ProblemOf(file: string, sec: Section, p: Problem) {
    && AllDigits(sec.digits)
    && ProblemText(sec.body).Some?
    && p == Problem(file, ParseDigits(sec.digits), ProblemText(sec.body).value, AnswerText(sec.body))
  }

  /** A first section that mentions `**Answer` gives the first problem; the others follow. */
  lemma ProblemsHead(file: string, secs: seq<Section>)
    requires WellFormed(Lead, secs) && secs != [] && Contains(secs[0].body, AnswerTag)
    ensures WellFormed(Lead, secs[1..])
    ensures exists h :: ProblemOf(file, secs[0], h) && Problems(file, secs) == [h] + Problems(file, secs[1..])
  {
    WellFormedTail(Lead, secs);
    var h := ParseSection(file, secs[0].digits, secs[0].body).value;
    assert ProblemOf(file, secs[0], h);
  }

  /** Sections that all mention `**Answer` give exactly one problem each, in order. */
  lemma {:induction false} ProblemsOnePerSection(file: string, secs: seq<Section>)
    requires WellFormed(Lead, secs)
    requires forall k :: 0 <= k < |secs| ==> Contains(secs[k].body, AnswerTag)
    ensures |Problems(file, secs)| == |secs|
    ensures forall k :: 0 <= k < |secs| ==> ProblemOf(file, secs[k], Problems(file, secs)[k])
    decreases |secs|
  {
    if secs != [] {
      ProblemsHead(file, secs);
      var h :| ProblemOf(file, secs[0], h) && Problems(file, secs) == [h] + Problems(file, secs[1..]);
      ProblemsOnePerSection(file, secs[1..]);
      var ps := Problems(file, secs);
      var tl := Problems(file, secs[1..]);
      forall k | 1 <= k < |secs| ensures ProblemOf(file, secs[k], ps[k]) {
        assert secs[k] == secs[1..][k - 1];
        assert ps[k] == tl[k - 1];
      }
    }
  }

  /** The loop yields at most one problem for each pair of pieces it visits. */
  lemma {:induction false} ParsePartsBound(file: string, parts: seq<string>, i: nat)
    requires GroupsFrom(parts, i)
    ensures 2 * |ParseParts(file, parts, i)| <= |parts| - i || (i >= |parts| && ParseParts(file, parts, i) == [])
    decreases |parts| - i
  {
    if i < |parts| {
      ParseStep(file, parts, i);
      ParsePartsBound(file, parts, i + 2);
    }
  }

  /** At most one problem per marker: the split pieces after the preamble come in pairs of digits and text. */
  lemma AtMostOnePerSection(file: string, content: string)
    ensures 2 * |ParseMarkdown(file, content)| < |ReSplit(Lead, content)|
  {
    SplitDigits(Lead, content);
    var parts := ReSplit(Lead, content);
    if |parts| > 1 {
      ParsePartsBound(file, parts, 1);
    }
  }

  // ---------------------------------------------------------------------------
  // load_all_problems

  /** What `load_all_problems` returns: every `*.md` file of the directory, in sorted order, parsed in turn. */
  ghost function AllProblems(fs: Files, dir: string): seq<Problem> {
    var files := SortedPaths(Glob(fs, dir, "*.md"));
    ProblemsOf(fs, files)
  }

  function ProblemsOf(fs: Files, paths: seq<string>): seq<Problem>
    requires forall p :: p in paths ==> p in fs
  {
    if paths == [] then [] else ParseMarkdown(Basename(paths[0]), fs[paths[0]]) + ProblemsOf(fs, paths[1..])
  }

  /** One step of `ProblemsOf` at position `i`. */
  lemma ProblemsOfStep(fs: Files, paths: seq<string>, i: nat)
    requires forall p :: p in paths ==> p in fs
    requires i < |paths|
    ensures ProblemsOf(fs, paths[i..]) == ParseMarkdown(Basename(paths[i]), fs[paths[i]]) + ProblemsOf(fs, paths[i + 1..])
  {
    assert paths[i..][1..] == paths[i + 1..];
  }

  /** `load_all_problems`: the sorted `*.md` files, each parsed and its problems appended. */
  method LoadAllProblems(fs: Files, dir: string) returns (allProblems: seq<Problem>)
    ensures allProblems == AllProblems(fs, dir)
  {
    var problemFiles := SortPaths(Glob(fs, dir, "*.md"));
    assert forall p :: p in problemFiles ==> p in fs;
    allProblems := [];
    var i := 0;
    assert problemFiles[0..] == problemFiles;
    while i < |problemFiles|
      invariant 0 <= i <= |problemFiles|
      invariant allProblems + ProblemsOf(fs, problemFiles[i..]) == ProblemsOf(fs, problemFiles)
    {
      ProblemsOfStep(fs, problemFiles, i);
      ghost var before := allProblems;
      var problems := ParseMarkdownFile(fs, problemFiles[i]);
      allProblems := allProblems + problems;
      LoopStep(before, problems, ProblemsOf(fs, problemFiles[i + 1..]), ProblemsOf(fs, problemFiles), allProblems);
      i := i + 1;
    }
  }
}
