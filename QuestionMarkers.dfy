/**
 * The question marker that both problem-bank splitters search for: a fixed lead
 * (`"\n## Q"` in the evaluation runner, `"## Q"` in the partitioning script)
 * followed by one or more decimal digits and a dot, i.e. the regular expression
 * `<lead>(\d+)\.`.
 *
 * Besides the recogniser this module describes the layout of a well-formed
 * problem bank (a preamble, then sections that each start with a marker) and
 * proves where the markers of such a document are. Both splitters build their
 * round-trip lemmas on that.
 */
module QuestionMarkers {
  import opened Text

  /** Index just past the run of ASCII digits that starts at `i`. */
  function DigitRunEnd(s: string, i: nat): (r: nat)
    requires i <= |s|
    ensures i <= r <= |s|
    decreases |s| - i
  {
    if i < |s| && IsDigit(s[i]) then DigitRunEnd(s, i + 1) else i
  }

  /** Everything in the run is a digit, and what stops it is the end of `s` or a non-digit. */
  lemma {:induction false} DigitRunEndSpec(s: string, i: nat)
    requires i <= |s|
    ensures forall k :: i <= k < DigitRunEnd(s, i) ==> IsDigit(s[k])
    ensures DigitRunEnd(s, i) == |s| || !IsDigit(s[DigitRunEnd(s, i)])
    decreases |s| - i
  {
    if i < |s| && IsDigit(s[i]) {
      DigitRunEndSpec(s, i + 1);
    }
  }

  /**
   * The pattern `<lead>(\d+)\.` tried at position `p`: the index just past the
   * dot when it matches. The greedy `\d+` can only succeed with the whole run of
   * digits, since a shorter run is followed by a digit rather than a dot.
   */
  function MarkerEnd(s: string, lead: string, p: nat): (r: Option<nat>)
    ensures r.Some? ==> p + |lead| + 1 < r.value <= |s| && s[r.value - 1] == '.'
    ensures r.Some? ==> OccursAt(s, lead, p)
  {
    if OccursAt(s, lead, p) then
      var d := DigitRunEnd(s, p + |lead|);
      if d > p + |lead| && d < |s| && s[d] == '.' then
        Some(d + 1)
      else None
    else None
  }

  predicate IsMarker(s: string, lead: string, p: nat) {
    MarkerEnd(s, lead, p).Some?
  }

  /** What a marker captures between its lead and its dot is a run of digits. */
  lemma MarkerEndDigits(s: string, lead: string, p: nat)
    requires IsMarker(s, lead, p)
    ensures AllDigits(s[p + |lead|..MarkerEnd(s, lead, p).value - 1])
  {
    DigitRunEndSpec(s, p + |lead|);
  }

  /** The first position at or after `from` where a marker starts. */
  function NextMarker(s: string, lead: string, from: nat): (r: Option<nat>)
    ensures r.Some? ==> from <= r.value < |s| && IsMarker(s, lead, r.value)
    decreases |s| - from
  {
    if from >= |s| then None
    else if IsMarker(s, lead, from) then Some(from)
    else NextMarker(s, lead, from + 1)
  }

  /** `NextMarker` finds the first marker: none starts between `from` and the one it returns. */
  lemma {:induction false} NextMarkerFirst(s: string, lead: string, from: nat, j: nat)
    requires from <= j
    requires NextMarker(s, lead, from).Some? ==> j < NextMarker(s, lead, from).value
    ensures !IsMarker(s, lead, j)
    decreases |s| - from
  {
    if from < |s| && !IsMarker(s, lead, from) && from < j {
      NextMarkerFirst(s, lead, from + 1, j);
    }
  }

  predicate NoMarker(s: string, lead: string) {
    NextMarker(s, lead, 0).None?
  }

  lemma NoMarkerAt(s: string, lead: string, j: nat)
    requires NoMarker(s, lead)
    ensures !IsMarker(s, lead, j)
  {
    NextMarkerFirst(s, lead, 0, j);
  }

  /**
   * A lead that cannot overlap itself, a digit or the closing dot. Both leads the
   * source uses have this shape; it is what keeps markers from overlapping.
   */
  predicate GoodLead(lead: string) {
    && |lead| > 0
    && !IsDigit(lead[0])
    && lead[0] != '.'
    && forall t :: 1 <= t < |lead| ==> lead[t..] != lead[..|lead| - t]
  }

  /** Two different sequences of one length differ at some index. */
  lemma Differ<T>(a: seq<T>, b: seq<T>)
    requires |a| == |b| && a != b
    ensures exists k :: 0 <= k < |a| && a[k] != b[k]
  {
  }

  /** No marker starts strictly inside another one. */
  lemma MarkersDisjoint(s: string, lead: string, p: nat, q: nat)
    requires GoodLead(lead)
    requires IsMarker(s, lead, p)
    requires p < q < MarkerEnd(s, lead, p).value
    ensures !IsMarker(s, lead, q)
  {
    var e := MarkerEnd(s, lead, p).value;
    MarkerEndDigits(s, lead, p);
    assert s[p..p + |lead|] == lead;
    if q < p + |lead| {
      var t := q - p;
      Differ(lead[t..], lead[..|lead| - t]);
      var k :| 0 <= k < |lead| - t && lead[t..][k] != lead[..|lead| - t][k];
      assert s[q + k] == s[p..p + |lead|][t + k] == lead[t + k];
      if q + |lead| <= |s| {
        assert s[q..q + |lead|][k] == s[q + k];
      }
      assert !OccursAt(s, lead, q);
    } else {
      if q < e - 1 {
        assert s[q] == s[p + |lead|..e - 1][q - p - |lead|];
      }
      assert !IsDigit(lead[0]) && lead[0] != '.';
      if q + |lead| <= |s| {
        assert s[q..q + |lead|][0] == s[q];
      }
      assert !OccursAt(s, lead, q);
    }
  }

  // ---------------------------------------------------------------------------
  // Markers of a concatenation

  /** The run of digits from inside `b` ends at the same place in `x + b + y` when `y` starts with a non-digit. */
  lemma {:induction false} DigitRunShift(x: string, b: string, y: string, i: nat)
    requires i <= |b|
    requires y == [] || !IsDigit(y[0])
    ensures DigitRunEnd(x + b + y, |x| + i) == |x| + DigitRunEnd(b, i)
    decreases |b| - i
  {
    var s := x + b + y;
    if i < |b| {
      assert s[|x| + i] == b[i];
      if IsDigit(b[i]) {
        DigitRunShift(x, b, y, i + 1);
      }
    } else {
      assert y != [] ==> s[|x| + i] == y[0];
    }
  }

  /** A marker of `x + b + y` that starts inside `b` is already a marker of `b`, when `y` is empty or starts with the lead. */
  lemma MarkerInRegion(lead: string, x: string, b: string, y: string, j: nat)
    requires GoodLead(lead)
    requires j < |b|
    requires y == [] || lead <= y
    ensures IsMarker(x + b + y, lead, |x| + j) ==> IsMarker(b, lead, j)
  {
    if j + |lead| > |b| {
      NoLeadAcross(lead, x, b, y, j);
    } else {
      MarkerInside(lead, x, b, y, j);
    }
  }

  /** A lead cannot start in `b` and run into `y` when `y` starts with the lead: that would be a border of the lead. */
  lemma NoLeadAcross(lead: string, x: string, b: string, y: string, j: nat)
    requires GoodLead(lead)
    requires j < |b| < j + |lead|
    requires y == [] || lead <= y
    ensures !OccursAt(x + b + y, lead, |x| + j)
  {
    var s := x + b + y;
    var p := |x| + j;
    if y != [] && p + |lead| <= |s| {
      var t := |b| - j;
      Differ(lead[t..], lead[..|lead| - t]);
      var k :| 0 <= k < |lead| - t && lead[t..][k] != lead[..|lead| - t][k];
      assert s[p + t + k] == y[k] == lead[k];
      assert s[p..p + |lead|][t + k] == s[p + t + k];
    }
  }

  /** A marker whose lead lies inside `b` is a marker of `b`: its digits end inside `b`, or at `y`, which is no dot. */
  lemma MarkerInside(lead: string, x: string, b: string, y: string, j: nat)
    requires GoodLead(lead)
    requires j + |lead| <= |b|
    requires y == [] || lead <= y
    ensures IsMarker(x + b + y, lead, |x| + j) ==> IsMarker(b, lead, j)
  {
    var s := x + b + y;
    var p := |x| + j;
    assert s[p..p + |lead|] == b[j..j + |lead|];
    DigitRunShift(x, b, y, j + |lead|);
    var d := DigitRunEnd(b, j + |lead|);
    if d == |b| {
      assert y != [] ==> s[|x| + d] == y[0] == lead[0];
    } else {
      assert s[|x| + d] == b[d];
    }
  }

  lemma {:induction false} SkipFrom(lead: string, x: string, b: string, y: string, i: nat)
    requires GoodLead(lead)
    requires NoMarker(b, lead)
    requires y == [] || lead <= y
    requires i <= |b|
    ensures NextMarker(x + b + y, lead, |x| + i) == NextMarker(x + b + y, lead, |x| + |b|)
    decreases |b| - i
  {
    if i < |b| {
      MarkerInRegion(lead, x, b, y, i);
      NoMarkerAt(b, lead, i);
      SkipFrom(lead, x, b, y, i + 1);
    }
  }

  /** Searching for a marker from the start of a marker-free region `b` skips the whole region. */
  lemma SkipRegion(lead: string, x: string, b: string, y: string)
    requires GoodLead(lead)
    requires NoMarker(b, lead)
    requires y == [] || lead <= y
    ensures NextMarker(x + b + y, lead, |x|) == NextMarker(x + b + y, lead, |x| + |b|)
  {
    SkipFrom(lead, x, b, y, 0);
  }

  /** `lead + d + "."` for a non-empty digit string `d` is a marker wherever it stands. */
  lemma MarkerAtStart(lead: string, x: string, d: string, rest: string)
    requires |d| > 0 && AllDigits(d)
    ensures MarkerEnd(x + Marker(lead, d) + rest, lead, |x|) == Some(|x| + |Marker(lead, d)|)
  {
    var s := x + Marker(lead, d) + rest;
    assert s[|x|..|x| + |lead|] == lead;
    assert s == (x + lead) + d + ("." + rest);
    DigitRunShift(x + lead, d, "." + rest, 0);
    DigitRunEndSpec(d, 0);
    assert DigitRunEnd(d, 0) == |d|;
    assert s[|x| + |lead| + |d|] == '.';
  }

  // ---------------------------------------------------------------------------
  // Layout of a well-formed problem bank

  /** One question: the digits of its marker and the text after the marker's dot. */
  datatype Section = Section(digits: string, body: string)

  function Marker(lead: string, digits: string): string {
    lead + digits + "."
  }

  /** The sections written out one after another, each behind its marker. */
  function Body(lead: string, secs: seq<Section>): string {
    if secs == [] then "" else Marker(lead, secs[0].digits) + secs[0].body + Body(lead, secs[1..])
  }

  /** A document: a preamble followed by the sections. */
  function Layout(lead: string, pre: string, secs: seq<Section>): string {
    pre + Body(lead, secs)
  }

  /** Every section has a non-empty digit string and a body without markers. */
  predicate WellFormed(lead: string, secs: seq<Section>) {
    secs == [] || (SectionOk(lead, secs[0]) && WellFormed(lead, secs[1..]))
  }

  predicate SectionOk(lead: string, sec: Section) {
    |sec.digits| > 0 && AllDigits(sec.digits) && NoMarker(sec.body, lead)
  }

  lemma MarkerLength(lead: string, d: string)
    ensures |Marker(lead, d)| == |lead| + |d| + 1
  {
  }

  lemma MarkerHere(s: string, lead: string, q: nat)
    requires IsMarker(s, lead, q)
    ensures NextMarker(s, lead, q) == Some(q)
  {
  }

  lemma NoMarkerPastEnd(s: string, lead: string, q: nat)
    requires q >= |s|
    ensures NextMarker(s, lead, q) == None
  {
  }

  /** The run of digits from `p + i` in `s` is the run from `i` in `s[p..]`, shifted by `p`. */
  lemma {:induction false} DigitRunSuffix(s: string, p: nat, i: nat)
    requires p + i <= |s|
    ensures DigitRunEnd(s, p + i) == p + DigitRunEnd(s[p..], i)
    decreases |s| - p - i
  {
    if p + i < |s| {
      assert s[p..][i] == s[p + i];
      if IsDigit(s[p + i]) {
        DigitRunSuffix(s, p, i + 1);
      }
    }
  }

  /** The pattern only looks forward: whether it matches at `p` depends on `s[p..]` alone. */
  lemma MarkerSuffix(s: string, lead: string, p: nat)
    requires p <= |s|
    ensures MarkerEnd(s[p..], lead, 0) == if IsMarker(s, lead, p) then Some(MarkerEnd(s, lead, p).value - p) else None
  {
    var t := s[p..];
    if p + |lead| <= |s| {
      assert t[0..|lead|] == s[p..p + |lead|];
      DigitRunSuffix(s, p, |lead|);
      var d := DigitRunEnd(s, p + |lead|);
      if d < |s| {
        assert t[d - p] == s[d];
      }
    }
  }

  /** A document that starts with a marker. */
  lemma HeadMarker(lead: string, t: string, d: string, z: string)
    requires |d| > 0 && AllDigits(d)
    requires t == Marker(lead, d) + z
    ensures MarkerEnd(t, lead, 0) == Some(|lead| + |d| + 1)
  {
    assert t == "" + Marker(lead, d) + z;
    MarkerAtStart(lead, "", d, z);
    MarkerLength(lead, d);
  }

  /** After a marker `m` and a marker-free region `b` that ends the document, there is no further marker. */
  lemma HeadNextEnd(lead: string, t: string, m: string, b: string, from: nat)
    requires GoodLead(lead) && NoMarker(b, lead)
    requires t == m + b && from == |m|
    ensures NextMarker(t, lead, from) == None
  {
    assert t == m + b + "";
    SkipRegion(lead, m, b, "");
    NoMarkerPastEnd(t, lead, |m| + |b|);
  }

  /** After a marker `m` and a marker-free region `b`, the next marker is where `rest` starts. */
  lemma HeadNextAt(lead: string, t: string, m: string, b: string, rest: string, from: nat, at: nat)
    requires GoodLead(lead) && NoMarker(b, lead)
    requires IsMarker(rest, lead, 0)
    requires t == m + b + rest && from == |m| && at == |m| + |b|
    ensures NextMarker(t, lead, from) == Some(at)
  {
    var q := |m| + |b|;
    assert rest[..|lead|] == rest[0..|lead|] == lead;
    SkipRegion(lead, m, b, rest);
    assert t[q..] == rest;
    MarkerSuffix(t, lead, q);
    MarkerHere(t, lead, q);
  }

  /** The body of the first section: its digits, its text, and the sections after it. */
  lemma HeadParts(lead: string, t: string, d: string, b: string, rest: string)
    requires t == Marker(lead, d) + b + rest
    ensures var e := |lead| + |d| + 1;
      && e + |b| <= |t|
      && t[|lead|..e - 1] == d
      && t[e..e + |b|] == b
      && t[e + |b|..] == rest
  {
    assert t == lead + d + ("." + b + rest);
    assert t == (lead + d + ".") + b + rest;
  }

  lemma BodyUnfold(lead: string, secs: seq<Section>)
    requires secs != []
    ensures Body(lead, secs) == Marker(lead, secs[0].digits) + secs[0].body + Body(lead, secs[1..])
  {
  }

  lemma Assoc(a: string, b: string, c: string)
    ensures a + b + c == a + (b + c)
  {
  }

  /** The body of a non-empty list of sections starts with a marker. */
  lemma BodyStarts(lead: string, secs: seq<Section>)
    requires WellFormed(lead, secs) && secs != []
    ensures IsMarker(Body(lead, secs), lead, 0)
    ensures Body(lead, secs) != ""
  {
    var m := Marker(lead, secs[0].digits);
    var rest := Body(lead, secs[1..]);
    BodyUnfold(lead, secs);
    Assoc(m, secs[0].body, rest);
    HeadMarker(lead, Body(lead, secs), secs[0].digits, secs[0].body + rest);
  }

  /** The tail of a well-formed list of sections is well formed. */
  lemma WellFormedTail(lead: string, secs: seq<Section>)
    requires WellFormed(lead, secs) && secs != []
    ensures WellFormed(lead, secs[1..])
  {
  }

  /** In a document with a marker-free preamble, the first marker is where the first section starts. */
  lemma FirstMarker(lead: string, pre: string, secs: seq<Section>)
    requires GoodLead(lead) && WellFormed(lead, secs) && NoMarker(pre, lead)
    ensures var s := Layout(lead, pre, secs);
      && NextMarker(s, lead, 0) == (if secs == [] then None else Some(|pre|))
      && s[..|pre|] == pre
      && s[|pre|..] == Body(lead, secs)
  {
    var s := Layout(lead, pre, secs);
    var t := Body(lead, secs);
    assert s == "" + pre + t;
    if secs == [] {
      assert t == "";
      SkipRegion(lead, "", pre, t);
      NoMarkerPastEnd(s, lead, |pre|);
    } else {
      BodyStarts(lead, secs);
      assert t[..|lead|] == t[0..|lead|] == lead;
      SkipRegion(lead, "", pre, t);
      assert s[|pre|..] == t;
      MarkerSuffix(s, lead, |pre|);
      MarkerHere(s, lead, |pre|);
    }
  }

  // ---------------------------------------------------------------------------
  // re.split of a document at every marker, the digits captured

  /** The split pieces: `[before, digits1, text1, digits2, text2, ...]`. */
  function ReSplit(lead: string, content: string): (parts: seq<string>)
    ensures NoMarker(content, lead) <==> parts == [content]
  {
    match NextMarker(content, lead, 0)
    case None => [content]
    case Some(p) =>
      MarkerSuffix(content, lead, p);
      [content[..p]] + SplitAt(lead, content[p..])
  }

  /**
   * The pieces after a marker that starts at the head of `t`: its digits, the
   * text up to the next marker (the search resumes where this marker ends),
   * then the pieces from that marker on.
   */
  function SplitAt(lead: string, t: string): (parts: seq<string>)
    decreases |t|
  {
    match MarkerEnd(t, lead, 0)
    case None => []
    case Some(e) =>
      var digits := t[|lead|..e - 1];
      match NextMarker(t, lead, e)
      case None => [digits, t[e..]]
      case Some(q) => [digits, t[e..q]] + SplitAt(lead, t[q..])
  }

  /** The pieces a layout of sections splits into, after its preamble. */
  function Flatten(secs: seq<Section>): (r: seq<string>)
    ensures |r| == 2 * |secs|
  {
    if secs == [] then [] else [secs[0].digits, secs[0].body] + Flatten(secs[1..])
  }

  /** Every captured group from `i` on, at `i`, `i + 2`, ..., is a run of digits: `\d+` admits nothing else. */
  predicate GroupsFrom(parts: seq<string>, i: nat)
    decreases |parts| - i
  {
    i >= |parts| || (AllDigits(parts[i]) && GroupsFrom(parts, i + 2))
  }

  /** The groups of a suffix are groups of the whole, shifted by the suffix's offset. */
  lemma {:induction false} GroupsShift(a: seq<string>, b: seq<string>, n: nat, i: nat)
    requires n <= |a| && a[n..] == b && GroupsFrom(b, i)
    ensures GroupsFrom(a, n + i)
    decreases |b| - i
  {
    if i < |b| {
      assert a[n + i] == b[i];
      GroupsShift(a, b, n, i + 2);
    }
  }

  lemma {:induction false} SplitAtDigits(lead: string, t: string)
    ensures GroupsFrom(SplitAt(lead, t), 0)
    decreases |t|
  {
    var e := MarkerEnd(t, lead, 0);
    if e.Some? {
      HeadDigits(lead, t);
      var q := NextMarker(t, lead, e.value);
      var parts := SplitAt(lead, t);
      if q.Some? {
        var tl := SplitAt(lead, t[q.value..]);
        SplitAtDigits(lead, t[q.value..]);
        assert parts[2..] == tl;
        GroupsShift(parts, tl, 2, 0);
      }
    }
  }

  lemma HeadDigits(lead: string, t: string)
    requires MarkerEnd(t, lead, 0).Some?
    ensures AllDigits(t[|lead|..MarkerEnd(t, lead, 0).value - 1])
  {
    var e := MarkerEnd(t, lead, 0).value;
    MarkerEndDigits(t, lead, 0);
    assert AllDigits(t[0 + |lead|..e - 1]);
  }

  /** The pieces `ReSplit` returns hold a run of digits at every odd position. */
  lemma SplitDigits(lead: string, content: string)
    ensures GroupsFrom(ReSplit(lead, content), 1)
  {
    var p := NextMarker(content, lead, 0);
    if p.Some? {
      var parts := ReSplit(lead, content);
      var tl := SplitAt(lead, content[p.value..]);
      SplitAtDigits(lead, content[p.value..]);
      assert parts[1..] == tl;
      GroupsShift(parts, tl, 1, 0);
    }
  }

  /**
   * `NextMarker` under a name that carries no unfolding budget: a fact stated
   * with it is found again exactly as it was stated, without unfolding the search.
   */
  function NextAt(s: string, lead: string, from: nat): Option<nat> {
    NextMarker(s, lead, from)
  }

  /** `SplitAt` on a text with one marker. */
  lemma SplitAtOne(lead: string, t: string, e: nat, d: string, b: string)
    requires MarkerEnd(t, lead, 0) == Some(e) && NextAt(t, lead, e) == None
    requires t[|lead|..e - 1] == d && t[e..] == b
    ensures SplitAt(lead, t) == [d, b]
  {
  }

  /** `SplitAt` on a text whose first marker is followed by another at `q`. */
  lemma SplitAtMore(lead: string, t: string, e: nat, q: nat, d: string, b: string)
    requires MarkerEnd(t, lead, 0) == Some(e) && NextAt(t, lead, e) == Some(q)
    requires t[|lead|..e - 1] == d && e <= q <= |t| && t[e..q] == b
    ensures SplitAt(lead, t) == [d, b] + SplitAt(lead, t[q..])
  {
  }

  lemma FlattenUnfold(secs: seq<Section>)
    requires secs != []
    ensures Flatten(secs) == [secs[0].digits, secs[0].body] + Flatten(secs[1..])
  {
  }

  /** Where a leading marker ends and what it captures. */
  lemma HeadOf(lead: string, t: string, d: string, z: string)
    requires |d| > 0 && AllDigits(d)
    requires t == Marker(lead, d) + z
    ensures |Marker(lead, d)| == |lead| + |d| + 1
    ensures MarkerEnd(t, lead, 0) == Some(|Marker(lead, d)|)
    ensures t[|lead|..|Marker(lead, d)| - 1] == d
  {
    MarkerLength(lead, d);
    HeadMarker(lead, t, d, z);
    HeadParts(lead, t, d, z, "");
  }

  /** After a marker `m` and a marker-free text `b` that ends the document, there is no further marker. */
  lemma LastFact(lead: string, t: string, m: string, b: string)
    requires GoodLead(lead) && NoMarker(b, lead)
    requires t == m + b
    ensures NextAt(t, lead, |m|) == None
    ensures t[|m|..] == b
  {
    HeadNextEnd(lead, t, m, b, |m|);
  }

  /** After a marker `m` and a marker-free text `b`, the next marker is where `rest` starts. */
  lemma NextFact(lead: string, t: string, m: string, b: string, rest: string)
    requires GoodLead(lead) && NoMarker(b, lead) && IsMarker(rest, lead, 0)
    requires t == m + b + rest
    ensures NextAt(t, lead, |m|) == Some(|m| + |b|)
    ensures |m| + |b| <= |t| && t[|m|..|m| + |b|] == b && t[|m| + |b|..] == rest
  {
    HeadNextAt(lead, t, m, b, rest, |m|, |m| + |b|);
  }

  /** A marker `m` capturing `d`, then a marker-free text `b` and nothing else, split into `d` and `b`. */
  lemma SplitAtLast(lead: string, t: string, m: string, d: string, b: string)
    requires GoodLead(lead) && NoMarker(b, lead)
    requires t == m + b
    requires MarkerEnd(t, lead, 0) == Some(|m|) && t[|lead|..|m| - 1] == d
    ensures SplitAt(lead, t) == [d, b]
  {
    LastFact(lead, t, m, b);
    SplitAtOne(lead, t, |m|, d, b);
  }

  /** A marker `m` capturing `d`, then a marker-free text `b`, then another marker: `d`, `b` and what the rest splits into. */
  lemma SplitAtNext(lead: string, t: string, m: string, d: string, b: string, rest: string)
    requires GoodLead(lead) && NoMarker(b, lead) && IsMarker(rest, lead, 0)
    requires t == m + b + rest
    requires MarkerEnd(t, lead, 0) == Some(|m|) && t[|lead|..|m| - 1] == d
    ensures SplitAt(lead, t) == [d, b] + SplitAt(lead, rest)
  {
    NextFact(lead, t, m, b, rest);
    SplitAtMore(lead, t, |m|, |m| + |b|, d, b);
  }

  /** The only section of a layout splits into its digits and its text. */
  lemma SplitBodyOne(lead: string, secs: seq<Section>)
    requires GoodLead(lead)
    requires WellFormed(lead, secs) && |secs| == 1
    ensures SplitAt(lead, Body(lead, secs)) == [secs[0].digits, secs[0].body]
  {
    var t := Body(lead, secs);
    var m := Marker(lead, secs[0].digits);
    var b := secs[0].body;
    BodyUnfold(lead, secs);
    assert Body(lead, secs[1..]) == "" by {
      assert secs[1..] == [];
    }
    assert t == m + b;
    HeadOf(lead, t, secs[0].digits, b);
    SplitAtLast(lead, t, m, secs[0].digits, b);
  }

  /** The first of several sections splits off its digits and its text; the rest starts at the next marker. */
  lemma SplitBodyStep(lead: string, secs: seq<Section>)
    requires GoodLead(lead)
    requires WellFormed(lead, secs) && |secs| > 1
    ensures SplitAt(lead, Body(lead, secs)) == [secs[0].digits, secs[0].body] + SplitAt(lead, Body(lead, secs[1..]))
  {
    var t := Body(lead, secs);
    var m := Marker(lead, secs[0].digits);
    var b := secs[0].body;
    var rest := Body(lead, secs[1..]);
    BodyUnfold(lead, secs);
    Assoc(m, b, rest);
    HeadOf(lead, t, secs[0].digits, b + rest);
    WellFormedTail(lead, secs);
    BodyStarts(lead, secs[1..]);
    SplitAtNext(lead, t, m, secs[0].digits, b, rest);
  }

  /** A layout of markers splits back into its sections. */
  lemma {:induction false} SplitBody(lead: string, secs: seq<Section>)
    requires GoodLead(lead)
    requires WellFormed(lead, secs) && secs != []
    ensures SplitAt(lead, Body(lead, secs)) == Flatten(secs)
    decreases |secs|
  {
    FlattenUnfold(secs);
    if |secs| == 1 {
      SplitBodyOne(lead, secs);
      assert Flatten(secs[1..]) == [] by {
        assert secs[1..] == [];
      }
    } else {
      SplitBodyStep(lead, secs);
      WellFormedTail(lead, secs);
      SplitBody(lead, secs[1..]);
    }
  }

  /** Splitting a preamble without markers followed by sections gives back the preamble and the sections. */
  lemma SplitLayout(lead: string, pre: string, secs: seq<Section>)
    requires GoodLead(lead)
    requires WellFormed(lead, secs) && NoMarker(pre, lead)
    ensures ReSplit(lead, Layout(lead, pre, secs)) == [pre] + Flatten(secs)
  {
    FirstMarker(lead, pre, secs);
    var s := Layout(lead, pre, secs);
    if secs == [] {
      assert s == s[..|pre|] + s[|pre|..];
      assert Body(lead, secs) == "";
      assert s == pre;
    } else {
      MarkerSuffix(s, lead, |pre|);
      assert ReSplit(lead, s) == [pre] + SplitAt(lead, Body(lead, secs));
      SplitBody(lead, secs);
    }
  }


  // ---------------------------------------------------------------------------
  // Every text has that layout

  /** A run of digits inside a prefix `s[..b]` that stops before `b` is the same run in `s`. */
  lemma {:induction false} DigitRunPrefix(s: string, b: nat, i: nat)
    requires i <= b <= |s|
    requires DigitRunEnd(s[..b], i) < b
    ensures DigitRunEnd(s, i) == DigitRunEnd(s[..b], i)
    decreases b - i
  {
    assert s[..b][i] == s[i];
    if IsDigit(s[i]) {
      DigitRunPrefix(s, b, i + 1);
    }
  }

  /** A marker of a prefix `s[..b]` is a marker of `s`: it ends at its dot, before `b`. */
  lemma MarkerOfPrefixText(s: string, lead: string, b: nat, q: nat)
    requires b <= |s| && IsMarker(s[..b], lead, q)
    ensures IsMarker(s, lead, q)
  {
    var u := s[..b];
    assert s[q..q + |lead|] == u[q..q + |lead|];
    var d := DigitRunEnd(u, q + |lead|);
    DigitRunPrefix(s, b, q + |lead|);
    assert s[d] == u[d];
  }

  /** A marker found in a piece `s[a..b]` of a text is a marker of the text, shifted by `a`. */
  lemma MarkerOfSlice(s: string, lead: string, a: nat, b: nat, q: nat)
    requires a <= b <= |s| && IsMarker(s[a..b], lead, q)
    ensures IsMarker(s, lead, a + q)
  {
    var t := s[a..];
    assert s[a..b] == t[..b - a];
    MarkerOfPrefixText(t, lead, b - a, q);
    MarkerSuffix(t, lead, q);
    assert t[q..] == s[a + q..];
    MarkerSuffix(s, lead, a + q);
  }

  /** A stretch of a text where no marker starts is, on its own, free of markers. */
  lemma NoMarkerSlice(s: string, lead: string, a: nat, b: nat)
    requires a <= b <= |s|
    requires forall j :: a <= j < b ==> !IsMarker(s, lead, j)
    ensures NoMarker(s[a..b], lead)
  {
    var x := s[a..b];
    forall j | 0 <= j < |x| && IsMarker(x, lead, j) ensures IsMarker(s, lead, a + j) {
      MarkerOfSlice(s, lead, a, b, j);
    }
  }

  /** The marker at `p`: its digits and the index just past its dot. */
  lemma MarkerPieces(s: string, lead: string, p: nat) returns (d: string, e: nat)
    requires IsMarker(s, lead, p)
    ensures e == MarkerEnd(s, lead, p).value && p < e <= |s|
    ensures |d| > 0 && AllDigits(d) && s[p..e] == Marker(lead, d)
  {
    e := MarkerEnd(s, lead, p).value;
    d := s[p + |lead|..e - 1];
    MarkerEndDigits(s, lead, p);
    assert s[p..e] == s[p..p + |lead|] + s[p + |lead|..e - 1] + s[e - 1..e];
  }

  /** From `e`, the text runs marker-free up to the next marker, or to the end when there is none. */
  lemma UpToNextMarker(s: string, lead: string, e: nat) returns (q: nat)
    requires e <= |s|
    ensures e <= q <= |s| && NoMarker(s[e..q], lead)
    ensures q < |s| ==> IsMarker(s, lead, q)
  {
    q := match NextMarker(s, lead, e) case None => |s| case Some(n) => n;
    forall j | e <= j < q ensures !IsMarker(s, lead, j) {
      NextMarkerFirst(s, lead, e, j);
    }
    NoMarkerSlice(s, lead, e, q);
  }

  /** The text from a marker on is a non-empty list of well-formed sections, cut at each marker. */
  lemma {:induction false} SectionsFrom(s: string, lead: string, p: nat) returns (secs: seq<Section>)
    requires IsMarker(s, lead, p)
    ensures WellFormed(lead, secs) && secs != []
    ensures s[p..] == Body(lead, secs)
    decreases |s| - p
  {
    var d, e := MarkerPieces(s, lead, p);
    var q := UpToNextMarker(s, lead, e);
    var sec := Section(d, s[e..q]);
    assert SectionOk(lead, sec);
    if q == |s| {
      secs := [sec];
      assert secs[1..] == [];
      assert s[p..] == s[p..e] + s[e..q] + "";
    } else {
      var rest := SectionsFrom(s, lead, q);
      secs := [sec] + rest;
      assert secs[1..] == rest;
      assert s[p..] == s[p..e] + s[e..q] + s[q..];
    }
  }

  /**
   * Every text is a marker-free preamble followed by well-formed sections: the
   * preamble runs to the first marker and each section to the next one. So the
   * lemmas stated for that layout describe every input.
   */
  lemma Decompose(lead: string, s: string) returns (pre: string, secs: seq<Section>)
    ensures NoMarker(pre, lead) && WellFormed(lead, secs)
    ensures s == Layout(lead, pre, secs)
  {
    var q := UpToNextMarker(s, lead, 0);
    assert s[0..q] == s[..q];
    pre := s[..q];
    if q == |s| {
      secs := [];
      assert s == pre + "";
    } else {
      secs := SectionsFrom(s, lead, q);
      assert s == s[..q] + s[q..];
    }
  }

  /** The split of any text is its preamble followed by each section's digits and body. */
  lemma SplitAny(lead: string, s: string) returns (pre: string, secs: seq<Section>)
    requires GoodLead(lead)
    ensures NoMarker(pre, lead) && WellFormed(lead, secs) && s == Layout(lead, pre, secs)
    ensures ReSplit(lead, s) == [pre] + Flatten(secs)
  {
    pre, secs := Decompose(lead, s);
    SplitLayout(lead, pre, secs);
  }

}
