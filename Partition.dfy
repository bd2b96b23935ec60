/**
 * `partition_problem_set`: a problem bank is cut at its first `---` into an
 * introduction and a problem section; the problem section is cut into one
 * piece per `## Q<digits>.` marker, the way `re.findall` with
 * `(## Q\d+\..*?)(?=## Q\d+\.|$)` and `re.DOTALL` cuts it; each piece loses
 * everything from `**Answer (steps):**` on, then its trailing whitespace and
 * dashes; the introduction and the numbered problems are then written to the
 * output directory, one file each.
 */
module Partition {
  import opened Text
  import opened QuestionMarkers
  import opened FileSystem

  /** The marker's fixed part: here a marker counts wherever it stands. */
  const Lead: string := "## Q"
  const Separator: string := "---"
  const StepsTag: string := "**Answer (steps):**"

  lemma LeadIsGood()
    ensures GoodLead(Lead)
    ensures !IsSpace(Lead[0]) && StepsTag[0] !in Lead
  {
    forall t | 1 <= t < |Lead| ensures Lead[t..] != Lead[..|Lead| - t] {
      if t == 1 {
        assert Lead[t..][1] == ' ' && Lead[..|Lead| - t][1] == '#';
      } else {
        assert Lead[t..][0] != '#' && Lead[..|Lead| - t][0] == '#';
      }
    }
  }

  // ---------------------------------------------------------------------------
  // Introduction and problem section

  /**
   * `content.split('---', 1)` with both parts stripped; without a `---` the
   * introduction is the whole content, unstripped, and the problem section is empty.
   */
  function SplitIntro(content: string): (r: (string, string)) {
    match FindFrom(content, Separator, 0)
    case None => (content, "")
    case Some(f) => (Strip(content[..f]), Strip(content[f + |Separator|..]))
  }

  /** `FindFrom` returns an occurrence that no earlier one precedes. */
  lemma {:induction false} FindFromExact(s: string, pat: string, from: nat, f: nat)
    requires from <= f && OccursAt(s, pat, f)
    requires forall j :: from <= j < f ==> !OccursAt(s, pat, j)
    ensures FindFrom(s, pat, from) == Some(f)
    decreases f - from
  {
    if from < f {
      FindFromExact(s, pat, from + 1, f);
    }
  }

  /**
   * Only the first `---` splits: the introduction is the stripped text before
   * it, the problem section the stripped text after it, and the introduction
   * holds no `---`. Without any `---` nothing is stripped.
   */
  lemma SplitAtFirstRule(content: string, f: nat)
    requires OccursAt(content, Separator, f)
    requires forall j :: 0 <= j < f ==> !OccursAt(content, Separator, j)
    ensures SplitIntro(content) == (Strip(content[..f]), Strip(content[f + 3..]))
    ensures !Contains(SplitIntro(content).0, Separator)
  {
    FindFromExact(content, Separator, 0, f);
    NoOccurrenceInWindow(content, Separator, 0, f);
    assert content[0..f] == content[..f];
    StripNotContains(content[..f], Separator);
  }

  lemma SplitWithoutRule(content: string)
    requires !Contains(content, Separator)
    ensures SplitIntro(content) == (content, "")
  {
  }

  /** `SplitIntro` and `SplitAtFirstRule` cover every content: a `---` has a first occurrence. */
  lemma FirstRule(content: string)
    requires Contains(content, Separator)
    ensures exists f: nat :: OccursAt(content, Separator, f) && forall j :: 0 <= j < f ==> !OccursAt(content, Separator, j)
  {
    var f := FindFrom(content, Separator, 0).value;
    FindFromWindow(content, Separator, 0, f);
  }

  // ---------------------------------------------------------------------------
  // re.findall of the problem segments

  /** Where `$` first matches: before a final newline, otherwise at the end. */
  function DollarAt(s: string): (r: nat)
    ensures r <= |s|
    ensures r == |s| <==> NoFinalNewline(s)
  {
    if s != [] && s[|s| - 1] == '\n' then |s| - 1 else |s|
  }

  predicate NoFinalNewline(s: string) {
    s == [] || s[|s| - 1] != '\n'
  }

  /**
   * The segments `findall` returns. Matches only start at a marker; each one
   * is the marker and the shortest text after it that is followed by another
   * marker or by `$`, and the scan resumes where the match ends.
   */
  function Segments(lead: string, s: string): (r: seq<string>) {
    match NextMarker(s, lead, 0)
    case None => []
    case Some(p) =>
      MarkerSuffix(s, lead, p);
      SegmentsAt(lead, s[p..])
  }

  /** The segments from a marker at the head of `t` on. */
  function SegmentsAt(lead: string, t: string): (r: seq<string>)
    decreases |t|
  {
    match MarkerEnd(t, lead, 0)
    case None => []
    case Some(e) =>
      match NextMarker(t, lead, e)
      case None => [t[..DollarAt(t)]]
      case Some(q) => [t[..q]] + SegmentsAt(lead, t[q..])
  }

  /** A text yields segments exactly when it holds a marker. */
  lemma SegmentsEmpty(lead: string, s: string)
    ensures Segments(lead, s) == [] <==> NoMarker(s, lead)
  {
    match NextMarker(s, lead, 0)
    case None =>
    case Some(p) =>
      MarkerSuffix(s, lead, p);
  }

  /** The run of digits that stops before `x` is the same run in `s[..x]`. */
  lemma {:induction false} DigitRunPrefix(s: string, x: nat, i: nat)
    requires i <= x <= |s| && DigitRunEnd(s, i) < x
    ensures DigitRunEnd(s[..x], i) == DigitRunEnd(s, i)
    decreases x - i
  {
    assert s[..x][i] == s[i];
    if IsDigit(s[i]) {
      DigitRunPrefix(s, x, i + 1);
    }
  }

  /** A marker at the head of `s` is a marker of every prefix that still holds it. */
  lemma MarkerPrefix(s: string, lead: string, x: nat)
    requires IsMarker(s, lead, 0) && MarkerEnd(s, lead, 0).value <= x <= |s|
    ensures MarkerEnd(s[..x], lead, 0) == MarkerEnd(s, lead, 0)
  {
    var e := MarkerEnd(s, lead, 0).value;
    assert s[..x][0..|lead|] == s[0..|lead|];
    DigitRunPrefix(s, x, |lead|);
    assert s[..x][e - 1] == s[e - 1];
  }

  /** `$` never cuts into a marker at the head: a marker ends with a dot, not a newline. */
  lemma DollarPastMarker(s: string, lead: string)
    requires IsMarker(s, lead, 0)
    ensures MarkerEnd(s, lead, 0).value <= DollarAt(s)
  {
  }

  /** Every segment starts with a marker. */
  lemma {:induction false} SegmentsAtHeads(lead: string, t: string)
    ensures forall k :: 0 <= k < |SegmentsAt(lead, t)| ==> IsMarker(SegmentsAt(lead, t)[k], lead, 0)
    decreases |t|
  {
    var r := SegmentsAt(lead, t);
    match MarkerEnd(t, lead, 0)
    case None =>
    case Some(e) =>
      match NextMarker(t, lead, e)
      case None =>
        DollarPastMarker(t, lead);
        MarkerPrefix(t, lead, DollarAt(t));
      case Some(q) =>
        MarkerPrefix(t, lead, q);
        SegmentsAtHeads(lead, t[q..]);
        forall k | 1 <= k < |r| ensures IsMarker(r[k], lead, 0) {
          assert r[k] == SegmentsAt(lead, t[q..])[k - 1];
        }
  }

  lemma SegmentsHeads(lead: string, s: string)
    ensures forall k :: 0 <= k < |Segments(lead, s)| ==> IsMarker(Segments(lead, s)[k], lead, 0)
  {
    match NextMarker(s, lead, 0)
    case None =>
    case Some(p) =>
      SegmentsAtHeads(lead, s[p..]);
  }

  // ---------------------------------------------------------------------------
  // Segments of a laid-out problem section

  /** Each section written out behind its marker: what `findall` should give back. */
  function Chunks(lead: string, secs: seq<Section>): (r: seq<string>)
    ensures |r| == |secs|
  {
    if secs == [] then [] else [Marker(lead, secs[0].digits) + secs[0].body] + Chunks(lead, secs[1..])
  }

  /** `SegmentsAt` on a text with one marker. */
  lemma SegmentsAtOne(lead: string, t: string, e: nat)
    requires MarkerEnd(t, lead, 0) == Some(e) && NextAt(t, lead, e) == None
    requires NoFinalNewline(t)
    ensures SegmentsAt(lead, t) == [t]
  {
    assert t[..|t|] == t;
  }

  /** `SegmentsAt` on a text whose first marker is followed by another at `q`. */
  lemma SegmentsAtMore(lead: string, t: string, e: nat, q: nat)
    requires MarkerEnd(t, lead, 0) == Some(e) && NextAt(t, lead, e) == Some(q)
    ensures q <= |t|
    ensures SegmentsAt(lead, t) == [t[..q]] + SegmentsAt(lead, t[q..])
  {
  }

  lemma SegmentsBodyOne(lead: string, secs: seq<Section>)
    requires GoodLead(lead)
    requires WellFormed(lead, secs) && |secs| == 1
    requires NoFinalNewline(Body(lead, secs))
    ensures SegmentsAt(lead, Body(lead, secs)) == [Marker(lead, secs[0].digits) + secs[0].body]
  {
    var t := Body(lead, secs);
    var m := Marker(lead, secs[0].digits);
    var b := secs[0].body;
    BodyUnfold(lead, secs);
    assert Body(lead, secs[1..]) == "" by {
      assert secs[1..] == [];
    }
    assert t == m + b;
    HeadOf(lead, t, secs[0].digits, b);
    LastFact(lead, t, m, b);
    SegmentsAtOne(lead, t, |m|);
  }

  lemma SegmentsBodyStep(lead: string, secs: seq<Section>)
    requires GoodLead(lead)
    requires WellFormed(lead, secs) && |secs| > 1
    ensures SegmentsAt(lead, Body(lead, secs)) ==
      [Marker(lead, secs[0].digits) + secs[0].body] + SegmentsAt(lead, Body(lead, secs[1..]))
  {
    var t := Body(lead, secs);
    var m := Marker(lead, secs[0].digits);
    var b := secs[0].body;
    var rest := Body(lead, secs[1..]);
    BodyUnfold(lead, secs);
    Assoc(m, b, rest);
    HeadOf(lead, t, secs[0].digits, b + rest);
    WellFormedTail(lead, secs);
    BodyStarts(lead, secs[1..]);
    SegmentsAtNext(lead, t, m, b, rest);
  }

  /** A marker `m`, a marker-free text `b`, then another marker: `m + b` is one segment and the rest follow. */
  lemma SegmentsAtNext(lead: string, t: string, m: string, b: string, rest: string)
    requires GoodLead(lead) && NoMarker(b, lead) && IsMarker(rest, lead, 0)
    requires t == m + b + rest && MarkerEnd(t, lead, 0) == Some(|m|)
    ensures SegmentsAt(lead, t) == [m + b] + SegmentsAt(lead, rest)
  {
    NextFact(lead, t, m, b, rest);
    SegmentsAtMore(lead, t, |m|, |m| + |b|);
    assert t[..|m| + |b|] == m + b;
  }

  /** The last character of a body is the last character of the body of its tail. */
  lemma BodyLast(lead: string, secs: seq<Section>)
    requires WellFormed(lead, secs) && |secs| > 1
    ensures NoFinalNewline(Body(lead, secs)) ==> NoFinalNewline(Body(lead, secs[1..]))
  {
    var t := Body(lead, secs);
    var rest := Body(lead, secs[1..]);
    BodyUnfold(lead, secs);
    WellFormedTail(lead, secs);
    BodyStarts(lead, secs[1..]);
    assert t[|t| - 1] == rest[|rest| - 1];
  }

  /** The sections of a layout come back as segments, one per marker. */
  lemma {:induction false} SegmentsBody(lead: string, secs: seq<Section>)
    requires GoodLead(lead)
    requires WellFormed(lead, secs) && secs != []
    requires NoFinalNewline(Body(lead, secs))
    ensures SegmentsAt(lead, Body(lead, secs)) == Chunks(lead, secs)
    decreases |secs|
  {
    if |secs| == 1 {
      SegmentsBodyOne(lead, secs);
      assert Chunks(lead, secs[1..]) == [] by {
        assert secs[1..] == [];
      }
    } else {
      SegmentsBodyStep(lead, secs);
      WellFormedTail(lead, secs);
      BodyLast(lead, secs);
      SegmentsBody(lead, secs[1..]);
    }
  }

  /**
   * Text before the first marker is ignored and every marker starts one
   * segment that runs to the next marker or the end: a marker-free preamble
   * followed by sections yields the sections, each behind its marker.
   */
  lemma SegmentsLayout(lead: string, pre: string, secs: seq<Section>)
    requires GoodLead(lead)
    requires WellFormed(lead, secs) && NoMarker(pre, lead)
    requires NoFinalNewline(Layout(lead, pre, secs))
    ensures Segments(lead, Layout(lead, pre, secs)) == Chunks(lead, secs)
  {
    FirstMarker(lead, pre, secs);
    var s := Layout(lead, pre, secs);
    if secs != [] {
      var t := Body(lead, secs);
      BodyStarts(lead, secs);
      assert s[|s| - 1] == t[|t| - 1];
      assert Segments(lead, s) == SegmentsAt(lead, t);
      SegmentsBody(lead, secs);
    }
  }

  /** Every text has that layout, so a text without a final newline has one segment per marker, in order. */
  lemma SegmentsAny(lead: string, s: string) returns (pre: string, secs: seq<Section>)
    requires GoodLead(lead) && NoFinalNewline(s)
    ensures NoMarker(pre, lead) && WellFormed(lead, secs) && s == Layout(lead, pre, secs)
    ensures Segments(lead, s) == Chunks(lead, secs)
  {
    pre, secs := Decompose(lead, s);
    SegmentsLayout(lead, pre, secs);
  }

  // ---------------------------------------------------------------------------
  // Cleaning one problem

  /**
   * `re.sub(r'\*\*Answer \(steps\):\*\*.*', '', s, flags=re.DOTALL)`: the text
   * before the first tag; a text without the tag is kept whole.
   */
  function RemoveAnswer(s: string): string {
    match FindFrom(s, StepsTag, 0)
    case None => s
    case Some(a) => s[..a]
  }

  /** The cut keeps everything before the first tag and nothing from it on. */
  lemma RemoveAnswerSpec(s: string)
    ensures !Contains(s, StepsTag) ==> RemoveAnswer(s) == s
    ensures Contains(s, StepsTag) ==>
      && RemoveAnswer(s) <= s
      && OccursAt(s, StepsTag, |RemoveAnswer(s)|)
      && forall j :: 0 <= j < |RemoveAnswer(s)| ==> !OccursAt(s, StepsTag, j)
  {
    if Contains(s, StepsTag) {
      FindFromWindow(s, StepsTag, 0, FindFrom(s, StepsTag, 0).value);
    }
  }

  /** `problem.strip()`, the answer cut, then `.rstrip().rstrip('-').strip()`. */
  function Clean(segment: string): string {
    Strip(RStripChar(RStrip(RemoveAnswer(Strip(segment))), '-'))
  }

  /** After the cut no tag is left. */
  lemma RemoveAnswerClean(s: string)
    ensures !Contains(RemoveAnswer(s), StepsTag)
  {
    var r := RemoveAnswer(s);
    RemoveAnswerSpec(s);
    if Contains(s, StepsTag) {
      NoOccurrenceInWindow(s, StepsTag, 0, |r|);
      assert s[0..|r|] == r;
    }
  }

  /** A cleaned problem never holds `**Answer (steps):**`. */
  lemma CleanHasNoAnswer(segment: string)
    ensures !Contains(Clean(segment), StepsTag)
  {
    var s2 := RemoveAnswer(Strip(segment));
    RemoveAnswerClean(Strip(segment));
    var s3 := RStrip(s2);
    NotContainsSlice(s2, StepsTag, 0, |s3|);
    assert s2[0..|s3|] == s3;
    var s4 := RStripChar(s3, '-');
    NotContainsSlice(s3, StepsTag, 0, |s4|);
    assert s3[0..|s4|] == s4;
    StripNotContains(s4, StepsTag);
  }

  /**
   * `y` is `x[i..j]`, and what lies outside is whitespace in front and
   * whitespace or dashes behind.
   */
  predicate Trimmed(x: string, y: string, i: nat, j: nat) {
    && i <= j <= |x|
    && y == x[i..j]
    && (forall k :: 0 <= k < i ==> IsSpace(x[k]))
    && (forall k :: j <= k < |x| ==> IsSpace(x[k]) || x[k] == '-')
  }

  lemma TrimmedTrans(x: string, y: string, z: string, i: nat, j: nat, i2: nat, j2: nat)
    requires Trimmed(x, y, i, j) && Trimmed(y, z, i2, j2)
    ensures Trimmed(x, z, i + i2, i + j2)
  {
    forall k | 0 <= k < |z| ensures z[k] == x[i + i2 + k] {
      assert z[k] == y[i2 + k];
    }
    assert z == x[i + i2..i + j2];
    forall k | i <= k < i + i2 ensures IsSpace(x[k]) {
      assert x[k] == y[k - i];
    }
    forall k | i + j2 <= k < j ensures IsSpace(x[k]) || x[k] == '-' {
      assert x[k] == y[k - i];
    }
  }

  lemma StripTrimmed(s: string)
    ensures Trimmed(s, Strip(s), StripStart(s), StripStart(s) + |Strip(s)|)
  {
    StripIsSlice(s);
  }

  lemma RStripTrimmed(s: string)
    ensures Trimmed(s, RStrip(s), 0, |RStrip(s)|)
  {
    SpaceRunStartSpec(s, 0, |s|);
  }

  lemma RStripCharTrimmed(s: string)
    ensures Trimmed(s, RStripChar(s, '-'), 0, |RStripChar(s, '-')|)
  {
    CharRunStartSpec(s, '-', |s|);
  }

  /**
   * A problem without the tag keeps its text: cleaning drops only leading
   * whitespace and a tail of whitespace and dashes.
   */
  lemma CleanKeepsText(segment: string)
    requires !Contains(segment, StepsTag)
    ensures exists i: nat, j: nat :: Trimmed(segment, Clean(segment), i, j)
  {
    var s1 := Strip(segment);
    StripTrimmed(segment);
    var a := StripStart(segment);
    StripNotContains(segment, StepsTag);
    assert RemoveAnswer(s1) == s1;
    var s3 := RStrip(s1);
    RStripTrimmed(s1);
    TrimmedTrans(segment, s1, s3, a, a + |s1|, 0, |s3|);
    var s4 := RStripChar(s3, '-');
    RStripCharTrimmed(s3);
    TrimmedTrans(segment, s3, s4, a, a + |s3|, 0, |s4|);
    StripTrimmed(s4);
    var b := StripStart(s4);
    TrimmedTrans(segment, s4, Strip(s4), a, a + |s4|, b, b + |Strip(s4)|);
    assert Clean(segment) == Strip(s4);
    assert Trimmed(segment, Clean(segment), a + b, a + b + |Strip(s4)|);
  }

  /**
   * A head `h` that starts and ends with neither whitespace nor a dash and
   * cannot hold the start of the tag survives cleaning.
   */
  lemma CleanKeepsHead(segment: string, h: string)
    requires h <= segment && |h| > 0
    requires !IsSpace(h[0]) && !IsSpace(h[|h| - 1]) && h[|h| - 1] != '-'
    requires StepsTag[0] !in h
    ensures h <= Clean(segment)
  {
    var n := |h|;
    assert segment[..n] == h;
    StripKeepsHead(segment, n);
    var s1 := Strip(segment);
    assert s1[..n] == h;
    var s2 := RemoveAnswer(s1);
    RemoveAnswerSpec(s1);
    if Contains(s1, StepsTag) {
      assert s1[|s2|] == StepsTag[0];
      assert |s2| >= n;
    }
    assert s2[..n] == h;
    RStripKeepsHead(s2, n);
    var s3 := RStrip(s2);
    assert s3[..n] == h;
    RStripCharKeepsHead(s3, '-', n);
    var s4 := RStripChar(s3, '-');
    assert s4[..n] == h;
    StripKeepsHead(s4, n);
  }

  /** What the marker at the head of `s` captures. */
  function Captured(s: string, lead: string): string
    requires IsMarker(s, lead, 0)
  {
    s[|lead|..MarkerEnd(s, lead, 0).value - 1]
  }

  /** Each cleaned problem still begins with the marker of its segment. */
  lemma CleanKeepsMarker(lead: string, segment: string)
    requires IsMarker(segment, lead, 0)
    requires |lead| > 0 && !IsSpace(lead[0]) && StepsTag[0] !in lead
    ensures IsMarker(Clean(segment), lead, 0)
    ensures Captured(Clean(segment), lead) == Captured(segment, lead)
  {
    var d := Captured(segment, lead);
    MarkerHead(lead, segment);
    var h := Marker(lead, d);
    assert h[0] == lead[0];
    assert h[|h| - 1] == '.';
    CleanKeepsHead(segment, h);
    MarkerOfPrefix(lead, d, Clean(segment));
  }

  /** A segment starts with its marker, which holds digits and no start of the tag. */
  lemma MarkerHead(lead: string, segment: string)
    requires IsMarker(segment, lead, 0)
    requires StepsTag[0] !in lead
    ensures |Captured(segment, lead)| > 0 && AllDigits(Captured(segment, lead))
    ensures Marker(lead, Captured(segment, lead)) <= segment
    ensures StepsTag[0] !in Marker(lead, Captured(segment, lead))
  {
    var e := MarkerEnd(segment, lead, 0).value;
    var d := Captured(segment, lead);
    MarkerEndDigits(segment, lead, 0);
    var h := segment[..e];
    assert segment[0..|lead|] == lead;
    assert h == Marker(lead, d);
    forall k | 0 <= k < |h| ensures h[k] != StepsTag[0] {
      if k < |lead| {
        assert h[k] == lead[k];
      } else if k < e - 1 {
        assert h[k] == d[k - |lead|];
      }
    }
  }

  /** A text that starts with a marker `lead + d + "."` has that marker at its head, capturing `d`. */
  lemma MarkerOfPrefix(lead: string, d: string, c: string)
    requires |d| > 0 && AllDigits(d) && Marker(lead, d) <= c
    ensures IsMarker(c, lead, 0) && Captured(c, lead) == d
  {
    var m := Marker(lead, d);
    var rest := c[|m|..];
    assert "" + m + rest == c;
    MarkerAtStart(lead, "", d, rest);
    assert MarkerEnd(c, lead, 0) == Some(|m|);
    assert c[|lead|..|m| - 1] == m[|lead|..|m| - 1];
    assert m[|lead|..|m| - 1] == d;
  }

  // ---------------------------------------------------------------------------
  // Output files

  /** `Path.stem`: the name without its last suffix; a leading or trailing dot is no suffix. */
  function Stem(name: string): (r: string)
    ensures r <= name
  {
    match LastIndex(name, '.', |name|)
    case None => name
    case Some(i) => if 0 < i < |name| - 1 then name[..i] else name
  }

  /** A name with a suffix loses exactly that suffix. */
  lemma StemDropsSuffix(base: string, ext: string)
    requires base != [] && ext != [] && '.' !in ext
    ensures Stem(base + "." + ext) == base
  {
    var name := base + "." + ext;
    assert forall k :: |base| < k < |name| ==> name[k] == ext[k - |base| - 1];
    assert forall k :: |base| < k < |name| ==> name[k] != '.';
    assert name[|base|] == '.';
    assert LastIndex(name, '.', |name|) == Some(|base|);
  }

  function IntroName(stem: string): string {
    stem + "_introduction.md"
  }

  /** `f"{stem}_problem_{i:03d}.md"`. */
  function ProblemName(stem: string, i: nat): string {
    stem + "_problem_" + ZeroPad3(i) + ".md"
  }

  /** Different numbers give different names, and no problem is named like the introduction. */
  lemma NamesDistinct(stem: string, i: nat, j: nat)
    ensures ProblemName(stem, i) == ProblemName(stem, j) ==> i == j
    ensures IntroName(stem) != ProblemName(stem, i)
  {
    if ProblemName(stem, i) == ProblemName(stem, j) {
      PaddingOfName(stem, i);
      PaddingOfName(stem, j);
      ZeroPad3Injective(i, j);
    }
    IntroNotProblem(stem, i);
  }

  /** The padded number sits between `<stem>_problem_` and `.md`. */
  lemma PaddingOfName(stem: string, i: nat)
    ensures var name := ProblemName(stem, i);
      |stem| + 9 <= |name| - 3 && name[|stem| + 9..|name| - 3] == ZeroPad3(i)
  {
    var p := stem + "_problem_";
    assert ProblemName(stem, i) == p + ZeroPad3(i) + ".md";
    MiddleOf(p, ZeroPad3(i), ".md");
  }

  /** The introduction's name differs from every problem's at the letter after `<stem>_`. */
  lemma IntroNotProblem(stem: string, i: nat)
    ensures IntroName(stem) != ProblemName(stem, i)
  {
    var y := "_problem_" + ZeroPad3(i) + ".md";
    assert y[1] == 'p';
    assert ProblemName(stem, i) == stem + y;
    LetterAfter(stem, "_introduction.md", y);
  }

  lemma MiddleOf(p: string, m: string, q: string)
    ensures (p + m + q)[|p|..|p + m + q| - |q|] == m
  {
  }

  /** Two names that extend `stem` differently right after it differ. */
  lemma LetterAfter(stem: string, x: string, y: string)
    requires |x| > 1 && |y| > 1 && x[1] != y[1]
    ensures stem + x != stem + y
  {
    assert (stem + x)[|stem| + 1] == x[1];
    assert (stem + y)[|stem| + 1] == y[1];
  }

  /** The number in a problem's name reads back as its position, counted from 1. */
  lemma ProblemNumber(stem: string, i: nat)
    ensures var name := ProblemName(stem, i);
      && |name| >= |stem| + 15
      && AllDigits(name[|stem| + 9..|name| - 3])
      && ParseDigits(name[|stem| + 9..|name| - 3]) == i
  {
    var name := ProblemName(stem, i);
    ZeroPad3RoundTrip(i);
    MiddleOf(stem + "_problem_", ZeroPad3(i), ".md");
  }

  /** One written file: its name in the output directory and its text. */
  datatype OutFile = OutFile(name: string, content: string)

  /** One file per content, the one at position `k` named `name(from + k)`. */
  function Numbered(name: nat -> string, contents: seq<string>, from: nat): (r: seq<OutFile>)
    ensures |r| == |contents|
  {
    if contents == [] then []
    else [OutFile(name(from), contents[0])] + Numbered(name, contents[1..], from + 1)
  }

  lemma {:induction false} NumberedAt(name: nat -> string, contents: seq<string>, from: nat)
    ensures forall k :: 0 <= k < |contents| ==> Numbered(name, contents, from)[k] == OutFile(name(from + k), contents[k])
    decreases |contents|
  {
    if contents != [] {
      var r := Numbered(name, contents, from);
      NumberedAt(name, contents[1..], from + 1);
      forall k | 1 <= k < |contents| ensures r[k] == OutFile(name(from + k), contents[k]) {
        assert r[k] == Numbered(name, contents[1..], from + 1)[k - 1];
        assert contents[k] == contents[1..][k - 1];
      }
    }
  }

  /** The problem files holding `contents`, numbered from `from`. */
  function ProblemFiles(stem: string, contents: seq<string>, from: nat): (r: seq<OutFile>)
    ensures |r| == |contents|
  {
    Numbered((n: nat) => ProblemName(stem, n), contents, from)
  }

  /** Problem file `k` holds content `k` under number `from + k`. */
  lemma ProblemFilesAt(stem: string, contents: seq<string>, from: nat)
    ensures forall k :: 0 <= k < |contents| ==>
      ProblemFiles(stem, contents, from)[k] == OutFile(ProblemName(stem, from + k), contents[k])
  {
    NumberedAt((n: nat) => ProblemName(stem, n), contents, from);
  }

  lemma ProblemFilesStep(stem: string, c: string, rest: seq<string>, from: nat)
    ensures ProblemFiles(stem, [c] + rest, from) == [OutFile(ProblemName(stem, from), c)] + ProblemFiles(stem, rest, from + 1)
  {
    assert ([c] + rest)[1..] == rest;
  }

  /** The segments of the problem section, when there is one (`if problem_section:`). */
  function ProblemSegments(content: string): seq<string> {
    var section := SplitIntro(content).1;
    if section != "" then Segments(Lead, section) else []
  }

  /** The introduction file under `stem`, then one numbered file per cleaned segment. */
  function Assemble(stem: string, intro: string, segments: seq<string>): seq<OutFile> {
    [OutFile(IntroName(stem), intro)] + ProblemFiles(stem, Map(Clean, segments), 1)
  }

  /** The introduction comes first, then problem `k` from segment `k - 1`. */
  lemma AssembleAt(stem: string, intro: string, segments: seq<string>)
    ensures |Assemble(stem, intro, segments)| == 1 + |segments|
    ensures Assemble(stem, intro, segments)[0] == OutFile(IntroName(stem), intro)
    ensures forall k :: 1 <= k < |Assemble(stem, intro, segments)| ==>
      Assemble(stem, intro, segments)[k] == OutFile(ProblemName(stem, k), Clean(segments[k - 1]))
  {
    AfterFirstAt(OutFile(IntroName(stem), intro), (n: nat) => ProblemName(stem, n), Map(Clean, segments));
    MapAt(Clean, segments);
  }

  /** Behind a first file, the file at position `k` is content `k - 1` named `name(k)`. */
  lemma AfterFirstAt(first: OutFile, name: nat -> string, contents: seq<string>)
    ensures forall k :: 1 <= k < 1 + |contents| ==>
      ([first] + Numbered(name, contents, 1))[k] == OutFile(name(k), contents[k - 1])
  {
    var files := Numbered(name, contents, 1);
    NumberedAt(name, contents, 1);
    forall k | 1 <= k < 1 + |contents| ensures ([first] + files)[k] == OutFile(name(k), contents[k - 1]) {
      assert ([first] + files)[k] == files[k - 1];
      assert 1 + (k - 1) == k;
    }
  }

  predicate DistinctNames(files: seq<OutFile>) {
    forall i, j :: 0 <= i < j < |files| ==> files[i].name != files[j].name
  }

  /** No two assembled files share a name. */
  lemma AssembleDistinct(stem: string, intro: string, segments: seq<string>)
    ensures DistinctNames(Assemble(stem, intro, segments))
  {
    var files := Assemble(stem, intro, segments);
    AssembleAt(stem, intro, segments);
    forall i, j | 0 <= i < j < |files| ensures files[i].name != files[j].name {
      assert files[j].name == ProblemName(stem, j);
      if i == 0 {
        assert files[i].name == IntroName(stem);
        NamesDistinct(stem, j, j);
      } else {
        assert files[i].name == ProblemName(stem, i);
        NamesDistinct(stem, i, j);
      }
    }
  }

  /** The files `partition_problem_set` writes for an input called `name`, in order. */
  function Partitioned(name: string, content: string): seq<OutFile> {
    Assemble(Stem(name), SplitIntro(content).0, ProblemSegments(content))
  }

  /** No two written files share a name. */
  lemma PartitionedDistinct(name: string, content: string)
    ensures DistinctNames(Partitioned(name, content))
  {
    AssembleDistinct(Stem(name), SplitIntro(content).0, ProblemSegments(content));
  }

  /** A content without `---` gives the introduction file alone, holding the whole content. */
  lemma NoRuleOnlyIntroduction(name: string, content: string)
    requires !Contains(content, Separator)
    ensures Partitioned(name, content) == [OutFile(IntroName(Stem(name)), content)]
  {
  }

  /**
   * Every problem file is one segment of the problem section, cleaned: it
   * begins with that segment's marker and holds no answer.
   */
  lemma ProblemFilesShape(name: string, content: string)
    ensures var files := Partitioned(name, content);
      forall k :: 1 <= k < |files| ==>
        && files[k].name == ProblemName(Stem(name), k)
        && IsMarker(files[k].content, Lead, 0)
        && !Contains(files[k].content, StepsTag)
  {
    var files := Partitioned(name, content);
    var segs := ProblemSegments(content);
    AssembleAt(Stem(name), SplitIntro(content).0, ProblemSegments(content));
    SegmentsHeads(Lead, SplitIntro(content).1);
    forall k | 0 <= k < |segs|
      ensures IsMarker(Clean(segs[k]), Lead, 0) && !Contains(Clean(segs[k]), StepsTag)
    {
      CleanSegment(segs[k]);
    }
  }

  /** A segment that starts with a marker keeps it through cleaning and loses its answer tag. */
  lemma CleanSegment(segment: string)
    requires IsMarker(segment, Lead, 0)
    ensures IsMarker(Clean(segment), Lead, 0) && !Contains(Clean(segment), StepsTag)
  {
    LeadIsGood();
    CleanKeepsMarker(Lead, segment);
    CleanHasNoAnswer(segment);
  }

  /** What is stripped never ends in a newline. */
  lemma StrippedNoFinalNewline(s: string)
    ensures NoFinalNewline(Strip(s))
  {
    StripIsSlice(s);
  }

  /**
   * A bank whose problem section is a marker-free preamble followed by
   * sections gives the introduction file and then exactly one problem file per
   * section, in order, numbered from 1, each holding that section behind its
   * marker, cleaned.
   */
  lemma PartitionLayout(name: string, content: string, f: nat, pre: string, secs: seq<Section>)
    requires OccursAt(content, Separator, f)
    requires forall j :: 0 <= j < f ==> !OccursAt(content, Separator, j)
    requires Strip(content[f + 3..]) == Layout(Lead, pre, secs)
    requires WellFormed(Lead, secs) && NoMarker(pre, Lead)
    ensures var files := Partitioned(name, content);
      && |files| == 1 + |secs|
      && files[0] == OutFile(IntroName(Stem(name)), Strip(content[..f]))
      && forall k :: 0 <= k < |secs| ==>
           files[k + 1] == OutFile(ProblemName(Stem(name), k + 1), Clean(Marker(Lead, secs[k].digits) + secs[k].body))
  {
    PartitionChunks(name, content, f, pre, secs);
    AssembleChunks(Stem(name), Strip(content[..f]), secs);
  }

  /** Every problem section has that layout, so `PartitionLayout` describes every bank with a `---`. */
  lemma PartitionAny(name: string, content: string, f: nat) returns (pre: string, secs: seq<Section>)
    requires OccursAt(content, Separator, f)
    requires forall j :: 0 <= j < f ==> !OccursAt(content, Separator, j)
    ensures NoMarker(pre, Lead) && WellFormed(Lead, secs) && Strip(content[f + 3..]) == Layout(Lead, pre, secs)
    ensures var files := Partitioned(name, content);
      && |files| == 1 + |secs|
      && files[0] == OutFile(IntroName(Stem(name)), Strip(content[..f]))
      && forall k :: 0 <= k < |secs| ==>
           files[k + 1] == OutFile(ProblemName(Stem(name), k + 1), Clean(Marker(Lead, secs[k].digits) + secs[k].body))
  {
    pre, secs := Decompose(Lead, Strip(content[f + 3..]));
    PartitionLayout(name, content, f, pre, secs);
  }

  /** Under the conditions of `PartitionLayout`, the segments are the chunks of the sections. */
  lemma PartitionChunks(name: string, content: string, f: nat, pre: string, secs: seq<Section>)
    requires OccursAt(content, Separator, f)
    requires forall j :: 0 <= j < f ==> !OccursAt(content, Separator, j)
    requires Strip(content[f + 3..]) == Layout(Lead, pre, secs)
    requires WellFormed(Lead, secs) && NoMarker(pre, Lead)
    ensures Partitioned(name, content) == Assemble(Stem(name), Strip(content[..f]), Chunks(Lead, secs))
  {
    SplitAtFirstRule(content, f);
    StrippedNoFinalNewline(content[f + 3..]);
    LayoutSegments(content, f, pre, secs);
  }

  /** The files assembled from the chunks of `secs`: file `k + 1` is section `k` behind its marker, cleaned. */
  lemma AssembleChunks(stem: string, intro: string, secs: seq<Section>)
    ensures var files := Assemble(stem, intro, Chunks(Lead, secs));
      && |files| == 1 + |secs|
      && files[0] == OutFile(IntroName(stem), intro)
      && forall k :: 0 <= k < |secs| ==>
           files[k + 1] == OutFile(ProblemName(stem, k + 1), Clean(Marker(Lead, secs[k].digits) + secs[k].body))
  {
    AssembleAt(stem, intro, Chunks(Lead, secs));
    ChunksAt(Lead, secs);
  }

  /** The segments of a laid-out problem section are its sections, each behind its marker. */
  lemma LayoutSegments(content: string, f: nat, pre: string, secs: seq<Section>)
    requires SplitIntro(content).1 == Layout(Lead, pre, secs)
    requires NoFinalNewline(Layout(Lead, pre, secs))
    requires WellFormed(Lead, secs) && NoMarker(pre, Lead)
    ensures ProblemSegments(content) == Chunks(Lead, secs)
  {
    LeadIsGood();
    SegmentsLayout(Lead, pre, secs);
  }

  /** The `k`-th chunk is the `k`-th section behind its marker. */
  lemma {:induction false} ChunksAt(lead: string, secs: seq<Section>)
    ensures forall k :: 0 <= k < |secs| ==> Chunks(lead, secs)[k] == Marker(lead, secs[k].digits) + secs[k].body
    decreases |secs|
  {
    if secs != [] {
      ChunksAt(lead, secs[1..]);
      forall k | 1 <= k < |secs| ensures Chunks(lead, secs)[k] == Marker(lead, secs[k].digits) + secs[k].body {
        assert Chunks(lead, secs)[k] == Chunks(lead, secs[1..])[k - 1];
        assert secs[k] == secs[1..][k - 1];
      }
    }
  }

  // ---------------------------------------------------------------------------
  // Writing the files

  /** The file system after writing `files` into `dir`, one after another. */
  function WriteAll(fs: Files, dir: string, files: seq<OutFile>): Files
    decreases |files|
  {
    if files == [] then fs
    else
      var last := files[|files| - 1];
      WriteAll(fs, dir, files[..|files| - 1])[JoinPath(dir, last.name) := last.content]
  }

  lemma WriteAllSnoc(fs: Files, dir: string, files: seq<OutFile>, f: OutFile)
    ensures WriteAll(fs, dir, files + [f]) == WriteAll(fs, dir, files)[JoinPath(dir, f.name) := f.content]
  {
    assert (files + [f])[..|files|] == files;
  }

  lemma JoinPathInjective(dir: string, a: string, b: string)
    requires JoinPath(dir, a) == JoinPath(dir, b)
    ensures a == b
  {
    assert JoinPath(dir, a)[|dir| + 1..] == a;
  }

  /**
   * With distinct names every file ends up holding what was written to it, and
   * every other path is as it was.
   */
  lemma {:induction false} WriteAllSpec(fs: Files, dir: string, files: seq<OutFile>)
    requires DistinctNames(files)
    ensures forall k :: 0 <= k < |files| ==>
      JoinPath(dir, files[k].name) in WriteAll(fs, dir, files) &&
      WriteAll(fs, dir, files)[JoinPath(dir, files[k].name)] == files[k].content
    ensures forall p :: (forall k :: 0 <= k < |files| ==> p != JoinPath(dir, files[k].name)) ==>
      (p in WriteAll(fs, dir, files) <==> p in fs) &&
      (p in fs ==> WriteAll(fs, dir, files)[p] == fs[p])
    decreases |files|
  {
    if files != [] {
      var n := |files| - 1;
      var init := files[..n];
      WriteAllSpec(fs, dir, init);
      var w := WriteAll(fs, dir, init);
      var last := JoinPath(dir, files[n].name);
      assert WriteAll(fs, dir, files) == w[last := files[n].content];
      forall k | 0 <= k < n ensures JoinPath(dir, files[k].name) != last {
        if JoinPath(dir, files[k].name) == last {
          JoinPathInjective(dir, files[k].name, files[n].name);
        }
      }
      forall k | 0 <= k < n ensures files[k] == init[k] {
      }
    }
  }

  /** The ways the script can fail. */
  datatype PartitionError = InputNotFound(path: string)

  /**
   * `partition_problem_set`: read the input, write the introduction, then
   * write each cleaned segment as a numbered problem file.
   */
  method PartitionProblemSet(fs: Files, inputFile: string, outputDir: string) returns (r: Result<Files, PartitionError>)
    ensures inputFile !in fs ==> r == Err(InputNotFound(inputFile))
    ensures inputFile in fs ==> r == Ok(WriteAll(fs, outputDir, Partitioned(Basename(inputFile), fs[inputFile])))
  {
    if inputFile !in fs {
      return Err(InputNotFound(inputFile));
    }
    var content := fs[inputFile];
    var stem := Stem(Basename(inputFile));
    var (introduction, problemSection) := SplitIntro(content);
    var introFile := OutFile(IntroName(stem), introduction);
    var out := fs[JoinPath(outputDir, introFile.name) := introFile.content];
    ghost var written := [introFile];
    assert out == WriteAll(fs, outputDir, written) by {
      assert written[..0] == [];
    }
    ghost var segments: seq<string> := if problemSection != "" then Segments(Lead, problemSection) else [];
    ghost var all := Partitioned(Basename(inputFile), content);
    assert all == written + ProblemFiles(stem, Map(Clean, segments), 1);
    if problemSection != "" {
      var problems := Segments(Lead, problemSection);
      var i := 0;
      assert problems[0..] == segments;
      assert Map(Clean, problems[0..]) == Map(Clean, segments);
      assert written + ProblemFiles(stem, Map(Clean, problems[0..]), 1) == all;
      while i < |problems|
        invariant 0 <= i <= |problems|
        invariant written + ProblemFiles(stem, Map(Clean, problems[i..]), i + 1) == all
        invariant out == WriteAll(fs, outputDir, written)
      {
        var problemContent := Clean(problems[i]);
        var problemFile := OutFile(ProblemName(stem, i + 1), problemContent);
        ghost var rest := Map(Clean, problems[i + 1..]);
        MapStep(Clean, problems, i);
        ProblemFilesStep(stem, problemContent, rest, i + 1);
        WriteAllSnoc(fs, outputDir, written, problemFile);
        out := out[JoinPath(outputDir, problemFile.name) := problemFile.content];
        ghost var before := written;
        written := written + [problemFile];
        LoopStep(before, [problemFile], ProblemFiles(stem, rest, i + 2), all, written);
        i := i + 1;
      }
      assert problems[i..] == [];
    }
    assert written == all;
    return Ok(out);
  }

  /** After a run every output file holds its text and nothing else in the file system changed. */
  lemma PartitionWrites(fs: Files, inputFile: string, outputDir: string)
    requires inputFile in fs
    ensures var files := Partitioned(Basename(inputFile), fs[inputFile]);
      var out := WriteAll(fs, outputDir, files);
      && (forall k :: 0 <= k < |files| ==> JoinPath(outputDir, files[k].name) in out && out[JoinPath(outputDir, files[k].name)] == files[k].content)
      && (forall p :: (forall k :: 0 <= k < |files| ==> p != JoinPath(outputDir, files[k].name)) ==>
            (p in out <==> p in fs) && (p in fs ==> out[p] == fs[p]))
  {
    PartitionedDistinct(Basename(inputFile), fs[inputFile]);
    WriteAllSpec(fs, outputDir, Partitioned(Basename(inputFile), fs[inputFile]));
  }
}
