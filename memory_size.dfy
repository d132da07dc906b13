/** The one regular expression of the backend,
    `Memory size: ([\d]+) Megabytes`, with FindAllStringSubmatch(s, -1),
    written as a scanner: the literal prefix, a maximal run of ASCII digits
    (the capture group) and the literal suffix. */
module MemorySize {
  import opened StrConv

  const Prefix: string := "Memory size: "
  const Suffix: string := " Megabytes"

  /** Where a match of the pattern starting at `start` sits in the text. */
  datatype Span = Span(start: nat, groupStart: nat, groupEnd: nat, end: nat)

  predicate HasAt(s: string, i: nat, p: string) {
    i + |p| <= |s| && s[i..i + |p|] == p
  }

  /** The end of the maximal run of digits starting at i. */
  function DigitRunEnd(s: string, i: nat): (j: nat)
    requires i <= |s|
    ensures i <= j <= |s| && AllDigits(s[i..j])
    ensures j < |s| ==> !IsDigit(s[j])
    decreases |s| - i
  {
    if i < |s| && IsDigit(s[i]) then
      var j := DigitRunEnd(s, i + 1);
      assert s[i..j] == [s[i]] + s[i + 1..j];
      j
    else i
  }

  /** The pattern matches at i: the prefix, at least one digit, the suffix. */
  predicate MatchesAt(s: string, i: nat) {
    && HasAt(s, i, Prefix)
    && var g := i + |Prefix|;
       var e := DigitRunEnd(s, g);
       g < e && HasAt(s, e, Suffix)
  }

  function SpanAt(s: string, i: nat): (m: Span)
    requires MatchesAt(s, i)
    ensures m.start == i && m.groupStart == i + |Prefix|
    ensures m.groupStart < m.groupEnd && m.end == m.groupEnd + |Suffix| <= |s|
  {
    var g := i + |Prefix|;
    var e := DigitRunEnd(s, g);
    Span(i, g, e, e + |Suffix|)
  }

  /** The text of the capture group: match[k][1] in Go. */
  function Group(s: string, m: Span): string
    requires m.groupStart <= m.groupEnd <= |s|
  {
    s[m.groupStart..m.groupEnd]
  }

  /** m is the match of the pattern that starts at m.start. */
  predicate IsMatch(s: string, m: Span) {
    MatchesAt(s, m.start) && m == SpanAt(s, m.start)
  }

  /** Each match ends before the next begins. */
  predicate InOrder(ms: seq<Span>) {
    forall a, b :: 0 <= a < b < |ms| ==> ms[a].end <= ms[b].start
  }

  /** Every match, left to right, of the text from i on: the search resumes
      at the end of each match. */
  function FindAllFrom(s: string, i: nat): (ms: seq<Span>)
    requires i <= |s|
    ensures forall k :: 0 <= k < |ms| ==> i <= ms[k].start && IsMatch(s, ms[k])
    ensures InOrder(ms)
    decreases |s| - i
  {
    if i == |s| then []
    else if MatchesAt(s, i) then
      var m := SpanAt(s, i);
      [m] + FindAllFrom(s, m.end)
    else FindAllFrom(s, i + 1)
  }

  /** regexp.FindAllStringSubmatch(s, -1) for this pattern. */
  function FindAll(s: string): seq<Span> {
    FindAllFrom(s, 0)
  }

  /** The pattern as a regular language: s[i..j] is the prefix, one or more
      digits and the suffix. */
  ghost predicate PatternSpans(s: string, i: nat, j: nat) {
    && i + |Prefix| + |Suffix| < j <= |s|
    && s[i..i + |Prefix|] == Prefix
    && s[j - |Suffix|..j] == Suffix
    && AllDigits(s[i + |Prefix|..j - |Suffix|])
  }

  /** The scanner agrees with the regular language: the pattern matches some
      s[i..j] exactly when MatchesAt(s, i), and then only with the span that
      SpanAt gives, so leftmost-first and greedy choice play no part. */
  lemma MatchesAtIsPattern(s: string, i: nat)
    ensures MatchesAt(s, i) <==> exists j :: PatternSpans(s, i, j)
    ensures forall j :: PatternSpans(s, i, j) ==> MatchesAt(s, i) && j == SpanAt(s, i).end
  {
    if MatchesAt(s, i) {
      var m := SpanAt(s, i);
      assert s[m.groupStart..m.end - |Suffix|] == s[m.groupStart..m.groupEnd];
      assert PatternSpans(s, i, m.end);
    }
    forall j | PatternSpans(s, i, j)
      ensures MatchesAt(s, i) && j == SpanAt(s, i).end
    {
      PatternForcesSpan(s, i, j);
    }
  }

  lemma DigitInRun(s: string, a: nat, b: nat, k: nat)
    requires a <= k < b <= |s| && AllDigits(s[a..b])
    ensures IsDigit(s[k])
  {
    var w := s[a..b];
    assert IsDigit(w[k - a]);
  }

  lemma PatternForcesSpan(s: string, i: nat, j: nat)
    requires PatternSpans(s, i, j)
    ensures MatchesAt(s, i) && j == SpanAt(s, i).end
  {
    var g := i + |Prefix|;
    var e := j - |Suffix|;
    var r := DigitRunEnd(s, g);
    assert s[e..j] == Suffix;
    assert s[e] == Suffix[0];
    assert r <= e by {
      if r > e {
        DigitInRun(s, g, r, e);
      }
    }
    assert r >= e by {
      if r < e {
        DigitInRun(s, g, e, r);
      }
    }
    assert s[i..i + |Prefix|] == Prefix;
  }

  lemma PrefixBegins(s: string, k: nat)
    ensures HasAt(s, k, Prefix) ==> s[k] == 'M' && s[k + 2] == 'm'
  {
    if HasAt(s, k, Prefix) {
      assert s[k..k + |Prefix|][0] == s[k];
      assert s[k..k + |Prefix|][2] == s[k + 2];
    }
  }

  /** Two matches never overlap: no character inside a match but its first
      can begin "Memory" (the suffix's "Megabytes" already differs at its
      third letter). */
  lemma NoOverlap(s: string, i: nat, k: nat)
    requires MatchesAt(s, i) && i < k < SpanAt(s, i).end
    ensures !MatchesAt(s, k)
  {
    var m := SpanAt(s, i);
    PrefixBegins(s, k);
    if k < m.groupStart {
      assert s[i..i + |Prefix|][k - i] == s[k];
      assert s[k] != 'M';
    } else if k < m.groupEnd {
      assert s[m.groupStart..m.groupEnd][k - m.groupStart] == s[k];
      assert s[k] != 'M';
    } else {
      var t := k - m.groupEnd;
      assert s[m.groupEnd..m.end] == Suffix;
      assert s[m.groupEnd..m.end][t] == s[k];
      if t == 1 {
        assert k + 2 < m.end;
        assert s[m.groupEnd..m.end][3] == s[k + 2];
        assert s[k + 2] != 'm';
      } else {
        assert s[k] != 'M';
      }
    }
  }

  /** The positions where the pattern matches, in the order found. */
  function Starts(ms: seq<Span>): (r: seq<nat>)
    ensures |r| == |ms| && forall k :: 0 <= k < |ms| ==> r[k] == ms[k].start
  {
    seq(|ms|, k requires 0 <= k < |ms| => ms[k].start)
  }

  /** Every position of the text at which the pattern matches. */
  ghost function Occurrences(s: string): set<nat> {
    set i: nat | i <= |s| && MatchesAt(s, i)
  }

  /** Because matches cannot overlap, resuming after each match skips none:
      the scan from i finds every position from i on where the pattern
      matches, and no other. */
  lemma {:induction false} FindAllFromFinds(s: string, i: nat, k: nat)
    requires i <= |s|
    ensures k in Starts(FindAllFrom(s, i)) <==> i <= k <= |s| && MatchesAt(s, k)
    decreases |s| - i
  {
    if i == |s| {
      assert !MatchesAt(s, i);
    } else if MatchesAt(s, i) {
      var m := SpanAt(s, i);
      var rest := FindAllFrom(s, m.end);
      assert Starts(FindAllFrom(s, i)) == [i] + Starts(rest);
      FindAllFromFinds(s, m.end, k);
      if i < k < m.end {
        NoOverlap(s, i, k);
      }
    } else {
      FindAllFromFinds(s, i + 1, k);
    }
  }

  lemma FindAllComplete(s: string)
    ensures forall k :: k in Starts(FindAll(s)) <==> k in Occurrences(s)
  {
    forall k ensures k in Starts(FindAll(s)) <==> k in Occurrences(s) {
      FindAllFromFinds(s, 0, k);
    }
  }

  predicate Increasing(xs: seq<nat>) {
    forall a, b :: 0 <= a < b < |xs| ==> xs[a] < xs[b]
  }

  function Elements(xs: seq<nat>): set<nat> {
    set x | x in xs
  }

  /** A strictly increasing sequence has as many elements as its set. */
  lemma {:induction false} IncreasingCard(xs: seq<nat>)
    requires Increasing(xs)
    ensures |Elements(xs)| == |xs|
  {
    if xs != [] {
      var rest := xs[1..];
      assert Increasing(rest);
      IncreasingCard(rest);
      assert Elements(xs) == {xs[0]} + Elements(rest);
      assert xs[0] !in Elements(rest);
    }
  }

  /** FindAll returns one match per position where the pattern occurs. */
  lemma MatchCount(s: string)
    ensures |FindAll(s)| == |Occurrences(s)|
  {
    var ms := FindAll(s);
    FindAllComplete(s);
    assert Elements(Starts(ms)) == Occurrences(s);
    assert Increasing(Starts(ms));
    IncreasingCard(Starts(ms));
  }

  /** With a single occurrence, FindAll returns exactly that match. */
  lemma SingleOccurrence(s: string, i: nat)
    requires Occurrences(s) == {i}
    ensures MatchesAt(s, i) && FindAll(s) == [SpanAt(s, i)]
  {
    MatchCount(s);
    FindAllComplete(s);
    var ms := FindAll(s);
    assert ms[0].start in Starts(ms);
  }

  /** The capture group of a match is a non-empty run of digits. */
  lemma GroupIsDigits(s: string, i: nat)
    requires MatchesAt(s, i)
    ensures Group(s, SpanAt(s, i)) != [] && AllDigits(Group(s, SpanAt(s, i)))
  {
  }

  lemma SliceOfSlice(s: string, i: nat, j: nat, a: nat, b: nat)
    requires i <= j <= |s| && a <= b <= j - i
    ensures s[i..j][a..b] == s[i + a..i + b]
  {
    var x, y := s[i..j][a..b], s[i + a..i + b];
    assert |x| == |y|;
    forall k | 0 <= k < |x| ensures x[k] == y[k] {
      assert x[k] == s[i..j][a + k] == s[i + a + k];
    }
  }

  /** Whether the pattern matches s[i..j] depends on those characters only. */
  lemma PatternSpansWindow(s: string, i: nat, j: nat)
    requires i <= j <= |s|
    ensures PatternSpans(s, i, j) <==> PatternSpans(s[i..j], 0, j - i)
  {
    var w := s[i..j];
    var n := j - i;
    if i + |Prefix| + |Suffix| < j {
      var a, b := |Prefix|, n - |Suffix|;
      SliceOfSlice(s, i, j, 0, a);
      SliceOfSlice(s, i, j, b, n);
      SliceOfSlice(s, i, j, a, b);
      assert w[0..a] == s[i..i + a];
      assert w[b..n] == s[j - |Suffix|..j];
      assert w[a..b] == s[i + a..j - |Suffix|];
    }
  }

  lemma PatternSpansShift(s: string, i: nat, j: nat, t: string, q: nat)
    requires i <= j <= |s| && q + (j - i) <= |t| && s[i..j] == t[q..q + (j - i)]
    requires PatternSpans(s, i, j)
    ensures PatternSpans(t, q, q + (j - i))
  {
    PatternSpansWindow(s, i, j);
    PatternSpansWindow(t, q, q + (j - i));
  }

  /** A match lies within one line. */
  lemma PatternSpansNoNewline(s: string, i: nat, j: nat, k: nat)
    requires PatternSpans(s, i, j) && i <= k < j
    ensures s[k] != '\n'
  {
    var g := i + |Prefix|;
    var e := j - |Suffix|;
    if k < g {
      assert s[i..g][k - i] == s[k];
    } else if k < e {
      assert s[g..e][k - g] == s[k];
    } else {
      assert s[e..j][k - e] == s[k];
    }
  }
}
