/**
 * The small part of Python's `str` API that the modelled code relies on:
 * whitespace stripping, substring search, joining, ASCII case mapping and the
 * decimal conversions `str(int)`, `int(digits)` and `f"{n:03d}"`; and two
 * facts about sequences that loops building a list rely on.
 */
module Text {

  datatype Option<+T> = None | Some(value: T) {
    function GetOr(default: T): T {
      match this
      case Some(v) => v
      case None => default
    }
  }

  datatype Result<+T, +E> = Ok(value: T) | Err(error: E)

  // ---------------------------------------------------------------------------
  // Whitespace and stripping

  /** Python's `str.isspace()` on one character (the code points Python treats as whitespace). */
  predicate IsSpace(c: char) {
    || ('\t' <= c <= '\r')
    || ('\U{1C}' <= c <= '\U{1F}')
    || c == ' '
    || c == '\U{85}'
    || c == '\U{A0}'
    || c == '\U{1680}'
    || ('\U{2000}' <= c <= '\U{200A}')
    || c == '\U{2028}'
    || c == '\U{2029}'
    || c == '\U{202F}'
    || c == '\U{205F}'
    || c == '\U{3000}'
  }

  /** The first index from `i` on that does not hold whitespace. */
  function SpaceRunEnd(s: string, i: nat): (r: nat)
    requires i <= |s|
    ensures i <= r <= |s|
    decreases |s| - i
  {
    if i < |s| && IsSpace(s[i]) then SpaceRunEnd(s, i + 1) else i
  }

  lemma {:induction false} SpaceRunEndSpec(s: string, i: nat)
    requires i <= |s|
    ensures forall k :: i <= k < SpaceRunEnd(s, i) ==> IsSpace(s[k])
    ensures SpaceRunEnd(s, i) == |s| || !IsSpace(s[SpaceRunEnd(s, i)])
    decreases |s| - i
  {
    if i < |s| && IsSpace(s[i]) {
      SpaceRunEndSpec(s, i + 1);
    }
  }

  /** The start of the run of whitespace that ends `s[lo..n]`. */
  function SpaceRunStart(s: string, lo: nat, n: nat): (r: nat)
    requires lo <= n <= |s|
    ensures lo <= r <= n
  {
    if n > lo && IsSpace(s[n - 1]) then SpaceRunStart(s, lo, n - 1) else n
  }

  lemma {:induction false} SpaceRunStartSpec(s: string, lo: nat, n: nat)
    requires lo <= n <= |s|
    ensures forall k :: SpaceRunStart(s, lo, n) <= k < n ==> IsSpace(s[k])
    ensures SpaceRunStart(s, lo, n) == lo || !IsSpace(s[SpaceRunStart(s, lo, n) - 1])
  {
    if n > lo && IsSpace(s[n - 1]) {
      SpaceRunStartSpec(s, lo, n - 1);
    }
  }

  /** The start of the run of `c` that ends `s[..n]`. */
  function CharRunStart(s: string, c: char, n: nat): (r: nat)
    requires n <= |s|
    ensures r <= n
  {
    if n > 0 && s[n - 1] == c then CharRunStart(s, c, n - 1) else n
  }

  lemma {:induction false} CharRunStartSpec(s: string, c: char, n: nat)
    requires n <= |s|
    ensures forall k :: CharRunStart(s, c, n) <= k < n ==> s[k] == c
    ensures CharRunStart(s, c, n) == 0 || s[CharRunStart(s, c, n) - 1] != c
  {
    if n > 0 && s[n - 1] == c {
      CharRunStartSpec(s, c, n - 1);
    }
  }

  /** `s.lstrip()`: drop the leading whitespace. */
  function LStrip(s: string): string {
    s[SpaceRunEnd(s, 0)..]
  }

  /** `s.rstrip(c)` for one character `c`: drop every trailing `c`. */
  function RStripChar(s: string, c: char): string {
    s[..CharRunStart(s, c, |s|)]
  }

  /** `s.rstrip()`: drop the trailing whitespace. */
  function RStrip(s: string): string {
    s[..SpaceRunStart(s, 0, |s|)]
  }

  /** Where `Strip(s)` starts inside `s`. */
  function StripStart(s: string): nat
    ensures StripStart(s) <= |s|
  {
    SpaceRunEnd(s, 0)
  }

  /** Where `Strip(s)` ends inside `s`. */
  function StripEnd(s: string): nat
    ensures StripStart(s) <= StripEnd(s) <= |s|
  {
    SpaceRunStart(s, StripStart(s), |s|)
  }

  /** `s.strip()`: `s.lstrip().rstrip()`. */
  function Strip(s: string): string {
    s[StripStart(s)..StripEnd(s)]
  }

  /** `Strip(s)` is the contiguous piece of `s` between two runs of whitespace. */
  lemma StripIsSlice(s: string)
    ensures StripStart(s) + |Strip(s)| <= |s|
    ensures Strip(s) == s[StripStart(s)..StripStart(s) + |Strip(s)|]
    ensures forall i :: 0 <= i < StripStart(s) ==> IsSpace(s[i])
    ensures forall i :: StripStart(s) + |Strip(s)| <= i < |s| ==> IsSpace(s[i])
    ensures Strip(s) == [] || (!IsSpace(Strip(s)[0]) && !IsSpace(Strip(s)[|Strip(s)| - 1]))
  {
    var a := StripStart(s);
    var b := StripEnd(s);
    SpaceRunEndSpec(s, 0);
    SpaceRunStartSpec(s, a, |s|);
    if a < b {
      assert Strip(s)[0] == s[a];
      assert Strip(s)[|Strip(s)| - 1] == s[b - 1];
    }
  }

  /** A string that starts with a non-space character keeps its first `n` characters (up to its last non-space). */
  lemma StripKeepsHead(s: string, n: nat)
    requires n <= |s| && n > 0
    requires !IsSpace(s[0]) && !IsSpace(s[n - 1])
    ensures s[..n] <= Strip(s)
  {
    assert StripStart(s) == 0;
    SpaceRunStartSpec(s, 0, |s|);
    assert StripEnd(s) >= n;
  }

  lemma RStripKeepsHead(s: string, n: nat)
    requires 0 < n <= |s|
    requires !IsSpace(s[n - 1])
    ensures s[..n] <= RStrip(s)
  {
    SpaceRunStartSpec(s, 0, |s|);
    assert SpaceRunStart(s, 0, |s|) >= n;
  }

  lemma RStripCharKeepsHead(s: string, c: char, n: nat)
    requires 0 < n <= |s|
    requires s[n - 1] != c
    ensures s[..n] <= RStripChar(s, c)
  {
    CharRunStartSpec(s, c, |s|);
    assert CharRunStart(s, c, |s|) >= n;
  }

  // ---------------------------------------------------------------------------
  // Substring search

  /** `pat` occurs in `s` starting at index `i`. */
  predicate OccursAt(s: string, pat: string, i: nat) {
    i + |pat| <= |s| && s[i..i + |pat|] == pat
  }

  /** `s.find(pat, from)` as an option: the first occurrence of `pat` at or after `from`. */
  function FindFrom(s: string, pat: string, from: nat): (r: Option<nat>)
    ensures r.Some? ==> from <= r.value && OccursAt(s, pat, r.value)
    decreases |s| - from
  {
    if from + |pat| > |s| then None
    else if OccursAt(s, pat, from) then Some(from)
    else FindFrom(s, pat, from + 1)
  }

  /** `FindFrom` finds the first occurrence: none starts between `from` and the one it returns. */
  lemma {:induction false} FindFromFirst(s: string, pat: string, from: nat, j: nat)
    requires from <= j
    requires FindFrom(s, pat, from).Some? ==> j < FindFrom(s, pat, from).value
    ensures !OccursAt(s, pat, j)
    decreases |s| - from
  {
    if from + |pat| <= |s| && !OccursAt(s, pat, from) && from < j {
      FindFromFirst(s, pat, from + 1, j);
    }
  }

  /** No occurrence starts in `[from, to)` when the search from `from` finds none before `to`. */
  lemma FindFromWindow(s: string, pat: string, from: nat, to: nat)
    requires FindFrom(s, pat, from).Some? ==> to <= FindFrom(s, pat, from).value
    ensures forall j :: from <= j < to ==> !OccursAt(s, pat, j)
  {
    forall j | from <= j < to ensures !OccursAt(s, pat, j) {
      FindFromFirst(s, pat, from, j);
    }
  }

  /** `s.rfind(c, 0, n)` as an option: the last occurrence of `c` in `s[..n]`. */
  function LastIndex(s: string, c: char, n: nat): (r: Option<nat>)
    requires n <= |s|
    ensures r.Some? ==> r.value < n && s[r.value] == c
    ensures forall k :: 0 <= k < n && (r.Some? ==> r.value < k) ==> s[k] != c
  {
    if n == 0 then None
    else if s[n - 1] == c then Some(n - 1)
    else LastIndex(s, c, n - 1)
  }

  /** Python's `pat in s`. */
  predicate Contains(s: string, pat: string) {
    FindFrom(s, pat, 0).Some?
  }

  /** An occurrence at a known index shows `pat in s`. */
  lemma OccursContains(s: string, pat: string, i: nat)
    requires OccursAt(s, pat, i)
    ensures Contains(s, pat)
  {
    if !Contains(s, pat) {
      FindFromFirst(s, pat, 0, i);
    }
  }

  /** A character of `pat` that `s` lacks shows `pat !in s`. */
  lemma MissingCharNotContains(s: string, pat: string, c: char)
    requires c in pat && c !in s
    ensures !Contains(s, pat)
  {
  }

  /** `pat` occurring nowhere shows `pat !in s`. */
  lemma NoWindowNotContains(s: string, pat: string)
    requires forall i: nat :: !OccursAt(s, pat, i)
    ensures !Contains(s, pat)
  {
  }

  /** A two-character pattern whose first character is never followed by its second is absent. */
  lemma PairNotContains(s: string, a: char, b: char)
    requires forall i :: 0 <= i < |s| - 1 && s[i] == a ==> s[i + 1] != b
    ensures !Contains(s, [a, b])
  {
    forall i: nat ensures !OccursAt(s, [a, b], i) {
      if i + 2 <= |s| {
        assert s[i..i + 2] == [s[i], s[i + 1]];
      }
    }
    NoWindowNotContains(s, [a, b]);
  }

  /** `s.startswith(prefix)`. */
  predicate StartsWith(s: string, prefix: string) {
    prefix <= s
  }

  /** An occurrence inside a slice is an occurrence in the whole string. */
  lemma OccursInSlice(s: string, pat: string, i: nat, j: nat, k: nat)
    requires i <= j <= |s|
    requires OccursAt(s[i..j], pat, k)
    ensures OccursAt(s, pat, i + k)
  {
    var t := s[i..j];
    assert forall x :: 0 <= x < |pat| ==> s[i + k + x] == t[k + x] == pat[x];
  }

  /** A slice of a string that does not contain `pat` does not contain it either. */
  lemma NotContainsSlice(s: string, pat: string, i: nat, j: nat)
    requires i <= j <= |s|
    requires !Contains(s, pat)
    ensures !Contains(s[i..j], pat)
  {
    var f := FindFrom(s[i..j], pat, 0);
    if f.Some? {
      OccursInSlice(s, pat, i, j, f.value);
      FindFromFirst(s, pat, 0, i + f.value);
      assert false;
    }
  }

  /** No occurrence of `pat` starts in `[from, to)`: then `s[from..to]` does not contain it. */
  lemma NoOccurrenceInWindow(s: string, pat: string, from: nat, to: nat)
    requires from <= to <= |s| && |pat| > 0
    requires forall j :: from <= j < to ==> !OccursAt(s, pat, j)
    ensures !Contains(s[from..to], pat)
  {
    var f := FindFrom(s[from..to], pat, 0);
    if f.Some? {
      OccursInSlice(s, pat, from, to, f.value);
      assert false;
    }
  }

  /** Stripping cannot create an occurrence. */
  lemma StripNotContains(s: string, pat: string)
    requires !Contains(s, pat)
    ensures !Contains(Strip(s), pat)
  {
    StripIsSlice(s);
    NotContainsSlice(s, pat, StripStart(s), StripStart(s) + |Strip(s)|);
  }

  // ---------------------------------------------------------------------------
  // Joining, replacing, case

  /** `sep.join(parts)`. */
  function Join(sep: string, parts: seq<string>): string {
    if |parts| == 0 then ""
    else if |parts| == 1 then parts[0]
    else parts[0] + sep + Join(sep, parts[1..])
  }

  /** `s.replace(old, new)` for single characters. */
  function ReplaceChar(s: string, from: char, to: char): (r: string)
    ensures |r| == |s|
    ensures forall i :: 0 <= i < |s| ==> r[i] == if s[i] == from then to else s[i]
  {
    seq(|s|, i requires 0 <= i < |s| => if s[i] == from then to else s[i])
  }

  function LowerChar(c: char): char {
    if 'A' <= c <= 'Z' then (c as int + 32) as char else c
  }

  function UpperChar(c: char): char {
    if 'a' <= c <= 'z' then (c as int - 32) as char else c
  }

  /** `s.lower()` leaves a string without capitals as it is. */
  lemma LowerUnchanged(s: string)
    requires forall i :: 0 <= i < |s| ==> !('A' <= s[i] <= 'Z')
    ensures Lower(s) == s
  {
  }

  /** `s.lower()` on ASCII letters. */
  function Lower(s: string): (r: string)
    ensures |r| == |s|
  {
    seq(|s|, i requires 0 <= i < |s| => LowerChar(s[i]))
  }

  /** `s.upper()` on ASCII letters. */
  function Upper(s: string): (r: string)
    ensures |r| == |s|
  {
    seq(|s|, i requires 0 <= i < |s| => UpperChar(s[i]))
  }

  /** `s.islower()` on ASCII letters: some letter is cased and none is upper case. */
  predicate IsLower(s: string) {
    (exists i :: 0 <= i < |s| && 'a' <= s[i] <= 'z') && (forall i :: 0 <= i < |s| ==> !('A' <= s[i] <= 'Z'))
  }

  // ---------------------------------------------------------------------------
  // Decimal numbers

  predicate IsDigit(c: char) {
    '0' <= c <= '9'
  }

  predicate AllDigits(s: string) {
    forall i :: 0 <= i < |s| ==> IsDigit(s[i])
  }

  function DigitChar(d: nat): char
    requires d < 10
  {
    ('0' as int + d) as char
  }

  function DigitValue(c: char): nat
    requires IsDigit(c)
  {
    c as int - '0' as int
  }

  /** `str(n)` for a natural number. */
  function NatToString(n: nat): (r: string)
    ensures |r| >= 1
  {
    if n < 10 then [DigitChar(n)] else NatToString(n / 10) + [DigitChar(n % 10)]
  }

  lemma {:induction false} NatToStringDigits(n: nat)
    ensures AllDigits(NatToString(n))
  {
    if n >= 10 {
      NatToStringDigits(n / 10);
    }
  }

  /** `int(s)` for a string of decimal digits (leading zeros allowed). */
  function ParseDigits(s: string): nat
    requires AllDigits(s)
  {
    if s == [] then 0 else ParseDigits(s[..|s| - 1]) * 10 + DigitValue(s[|s| - 1])
  }

  /** `int(str(n)) == n`. */
  lemma {:induction false} ParseNatToString(n: nat)
    ensures AllDigits(NatToString(n)) && ParseDigits(NatToString(n)) == n
  {
    NatToStringDigits(n);
    if n >= 10 {
      NatToStringDigits(n / 10);
      var r := NatToString(n);
      assert r[..|r| - 1] == NatToString(n / 10);
      ParseNatToString(n / 10);
    }
  }

  /** Leading zeros do not change the value of a digit string. */
  lemma {:induction false} ParseLeadingZero(s: string)
    requires AllDigits(s)
    ensures AllDigits("0" + s) && ParseDigits("0" + s) == ParseDigits(s)
  {
    if s != [] {
      var t := "0" + s;
      assert t[..|t| - 1] == "0" + s[..|s| - 1];
      ParseLeadingZero(s[..|s| - 1]);
    }
  }

  /** `str(i)` for any integer. */
  function IntToString(i: int): (r: string)
    ensures |r| >= 1
  {
    if i < 0 then "-" + NatToString(-i) else NatToString(i)
  }

  /** `int(s)` for an optionally negative decimal string. */
  function ParseInt(s: string): int
    requires |s| >= 1
    requires (s[0] == '-' && AllDigits(s[1..])) || AllDigits(s)
  {
    if s[0] == '-' then -(ParseDigits(s[1..]) as int) else ParseDigits(s)
  }

  /** `int(str(i)) == i`; in particular `str` is injective on integers. */
  lemma IntToStringRoundTrip(i: int)
    ensures var r := IntToString(i);
      ((r[0] == '-' && AllDigits(r[1..])) || AllDigits(r)) && ParseInt(r) == i
  {
    var r := IntToString(i);
    if i < 0 {
      assert r[1..] == NatToString(-i);
      ParseNatToString(-i);
    } else {
      ParseNatToString(i);
    }
  }

  function Zeros(n: nat): (r: string)
    ensures |r| == n
  {
    if n == 0 then "" else "0" + Zeros(n - 1)
  }

  /** `f"{n:03d}"`: at least three digits, padded with zeros on the left. */
  function ZeroPad3(n: nat): string {
    var d := NatToString(n);
    if |d| >= 3 then d else Zeros(3 - |d|) + d
  }

  lemma {:induction false} ParseZeros(k: nat, s: string)
    requires AllDigits(s)
    ensures AllDigits(Zeros(k) + s) && ParseDigits(Zeros(k) + s) == ParseDigits(s)
  {
    if k > 0 {
      assert Zeros(k) + s == "0" + (Zeros(k - 1) + s);
      ParseZeros(k - 1, s);
      ParseLeadingZero(Zeros(k - 1) + s);
    } else {
      assert Zeros(k) + s == s;
    }
  }

  /** The padded number reads back as the number, and is never shorter than three digits. */
  lemma ZeroPad3RoundTrip(n: nat)
    ensures |ZeroPad3(n)| >= 3 && AllDigits(ZeroPad3(n)) && ParseDigits(ZeroPad3(n)) == n
  {
    var d := NatToString(n);
    ParseNatToString(n);
    if |d| < 3 {
      ParseZeros(3 - |d|, d);
    }
  }

  lemma ZeroPad3Injective(i: nat, j: nat)
    requires ZeroPad3(i) == ZeroPad3(j)
    ensures i == j
  {
    ZeroPad3RoundTrip(i);
    ZeroPad3RoundTrip(j);
  }

  // ---------------------------------------------------------------------------
  // Sequences

  /** One step of a loop that appends `here` while `rest` is still to come. */
  lemma LoopStep<T>(before: seq<T>, here: seq<T>, rest: seq<T>, total: seq<T>, now: seq<T>)
    requires before + (here + rest) == total && now == before + here
    ensures now + rest == total
  {
  }

  lemma AppendAssoc<T>(a: seq<T>, b: seq<T>, c: seq<T>)
    ensures (a + b) + c == a + (b + c)
  {
  }

  /** `[f(x) for x in xs]`. */
  function Map<A, B>(f: A -> B, xs: seq<A>): (r: seq<B>)
    ensures |r| == |xs|
  {
    if xs == [] then [] else [f(xs[0])] + Map(f, xs[1..])
  }

  lemma {:induction false} MapAt<A, B>(f: A -> B, xs: seq<A>)
    ensures forall k :: 0 <= k < |xs| ==> Map(f, xs)[k] == f(xs[k])
    decreases |xs|
  {
    if xs != [] {
      MapAt(f, xs[1..]);
      forall k | 1 <= k < |xs| ensures Map(f, xs)[k] == f(xs[k]) {
        assert Map(f, xs)[k] == Map(f, xs[1..])[k - 1];
        assert xs[k] == xs[1..][k - 1];
      }
    }
  }

  lemma MapStep<A, B>(f: A -> B, xs: seq<A>, i: nat)
    requires i < |xs|
    ensures Map(f, xs[i..]) == [f(xs[i])] + Map(f, xs[i + 1..])
  {
    assert xs[i..][1..] == xs[i + 1..];
  }

  /** `xs[..i + 1]` maps to `xs[..i]`'s image and one more element: how a loop appending `f(xs[i])` grows its list. */
  lemma {:induction false} MapSnoc<A, B>(f: A -> B, xs: seq<A>, i: nat)
    requires i < |xs|
    ensures Map(f, xs[..i + 1]) == Map(f, xs[..i]) + [f(xs[i])]
    decreases i
  {
    if i > 0 {
      MapSnoc(f, xs[1..], i - 1);
      assert xs[..i + 1][1..] == xs[1..][..i];
      assert xs[..i][1..] == xs[1..][..i - 1];
      assert xs[1..][i - 1] == xs[i];
    }
  }

  /** Mapping a concatenation maps each part. */
  lemma {:induction false} MapConcat<A, B>(f: A -> B, xs: seq<A>, ys: seq<A>)
    ensures Map(f, xs + ys) == Map(f, xs) + Map(f, ys)
    decreases |xs|
  {
    if xs != [] {
      assert (xs + ys)[1..] == xs[1..] + ys;
      MapConcat(f, xs[1..], ys);
    } else {
      assert xs + ys == ys;
    }
  }

  // ---------------------------------------------------------------------------
  // Splitting at a character

  /** `s.endswith(suffix)`. */
  predicate EndsWith(s: string, suffix: string) {
    |suffix| <= |s| && s[|s| - |suffix|..] == suffix
  }

  /** A suffix of `b` is a suffix of `a + b`. */
  lemma EndsWithConcat(a: string, b: string, suffix: string)
    requires EndsWith(b, suffix)
    ensures EndsWith(a + b, suffix)
  {
    assert (a + b)[|a + b| - |suffix|..] == b[|b| - |suffix|..];
  }

  /** `s.split(c)` for a single character `c`: the pieces between occurrences of `c`. */
  function Split(s: string, c: char): (r: seq<string>)
    ensures |r| >= 1
    decreases |s|
  {
    if s == [] then [""]
    else
      var rest := Split(s[1..], c);
      if s[0] == c then [""] + rest else [[s[0]] + rest[0]] + rest[1..]
  }

  /** A piece without `c`, then `c`: the piece comes off whole. */
  lemma {:induction false} SplitPiece(p: string, c: char, t: string)
    requires c !in p
    ensures Split(p + [c] + t, c) == [p] + Split(t, c)
    ensures Split(p, c) == [p]
    decreases |p|
  {
    if p == [] {
      assert p + [c] + t == [c] + t;
      assert ([c] + t)[1..] == t;
    } else {
      assert (p + [c] + t)[1..] == p[1..] + [c] + t;
      assert p[1..] + [c] + t != [];
      SplitPiece(p[1..], c, t);
      assert [p[0]] + p[1..] == p;
    }
  }

  /** Joining pieces that avoid `c` with `c`, then splitting at `c`, gives the pieces back. */
  lemma {:induction false} SplitJoin(parts: seq<string>, c: char)
    requires parts != []
    requires forall k :: 0 <= k < |parts| ==> c !in parts[k]
    ensures Split(Join([c], parts), c) == parts
    decreases |parts|
  {
    if |parts| == 1 {
      SplitPiece(parts[0], c, "");
    } else {
      SplitJoin(parts[1..], c);
      SplitPiece(parts[0], c, Join([c], parts[1..]));
      assert [parts[0]] + parts[1..] == parts;
    }
  }

  /** Joining never introduces a character that neither the separator nor any part holds. */
  lemma {:induction false} JoinAvoids(sep: string, parts: seq<string>, c: char)
    requires c !in sep
    requires forall k :: 0 <= k < |parts| ==> c !in parts[k]
    ensures c !in Join(sep, parts)
    decreases |parts|
  {
    if |parts| > 1 {
      JoinAvoids(sep, parts[1..], c);
    }
  }

  /** Every part occurs in the joined text. */
  lemma {:induction false} JoinHoldsPart(sep: string, parts: seq<string>, k: nat)
    requires k < |parts|
    ensures exists i: nat :: OccursAt(Join(sep, parts), parts[k], i)
    decreases |parts|
  {
    if |parts| == 1 {
      assert OccursAt(Join(sep, parts), parts[k], 0);
    } else {
      var j := Join(sep, parts);
      var rest := Join(sep, parts[1..]);
      assert j == parts[0] + sep + rest;
      if k == 0 {
        assert j[..|parts[0]|] == parts[0];
        assert OccursAt(j, parts[k], 0);
      } else {
        JoinHoldsPart(sep, parts[1..], k - 1);
        var i: nat :| OccursAt(rest, parts[1..][k - 1], i);
        var off := |parts[0]| + |sep|;
        assert j[off..] == rest;
        assert j[off + i..off + i + |parts[k]|] == rest[i..i + |parts[k]|];
        assert OccursAt(j, parts[k], off + i);
      }
    }
  }
}
