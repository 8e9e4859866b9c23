/**
  The numeric token scanner of `create_visualization` (app.py:128):
  `re.findall(r"\b\d+(?:\.\d+)?\b", data)`, written as a scanner over a string,
  together with the exact value of each token (the `float(n)` of app.py:129,
  kept as an exact decimal).
 */
module NumberScan {
  import opened Wrappers

  /** `\d`: an ASCII decimal digit. */
  predicate IsDigit(c: char) {
    '0' <= c <= '9'
  }

  /** `\w`: an ASCII letter, digit or underscore. */
  predicate IsWord(c: char) {
    IsDigit(c) || ('a' <= c <= 'z') || ('A' <= c <= 'Z') || c == '_'
  }

  /** `\b` at position `i`: the characters on the two sides differ in being word
      characters, the outside of the string counting as non-word. */
  predicate WordBoundary(s: string, i: nat)
    requires i <= |s|
  {
    (i > 0 && IsWord(s[i - 1])) != (i < |s| && IsWord(s[i]))
  }

  predicate AllDigits(t: string) {
    forall k | 0 <= k < |t| :: IsDigit(t[k])
  }

  // ---------------------------------------------------------------------------
  // Reference grammar: what a token is, stated without the scanner.
  // ---------------------------------------------------------------------------

  /** `t` is digits, a point at `p`, and digits, both runs non-empty. */
  predicate DecimalAt(t: string, p: nat) {
    0 < p < |t| - 1 && t[p] == '.' && AllDigits(t[..p]) && AllDigits(t[p + 1..])
  }

  /** An integer or decimal literal: a non-empty run of digits, optionally
      followed by a point and a non-empty run of digits. No sign, no exponent,
      no separator. */
  predicate IsNumeral(t: string) {
    (|t| > 0 && AllDigits(t)) || exists p: nat | p < |t| :: DecimalAt(t, p)
  }

  /** `s[i..j]` is a numeral with a non-word character, or the edge of `s`,
      on each side of it. */
  predicate Candidate(s: string, i: nat, j: nat) {
    && i < j <= |s|
    && IsNumeral(s[i..j])
    && (i == 0 || !IsWord(s[i - 1]))
    && (j == |s| || !IsWord(s[j]))
  }

  // ---------------------------------------------------------------------------
  // The regular expression, one match attempt at a time.
  // ---------------------------------------------------------------------------

  /** End of the maximal run of digits starting at `i` (the greedy `\d+`). */
  function DigitRunEnd(s: string, i: nat): (e: nat)
    requires i <= |s|
    ensures i <= e <= |s|
    ensures forall k | i <= k < e :: IsDigit(s[k])
    ensures e == |s| || !IsDigit(s[e])
    decreases |s| - i
  {
    if i < |s| && IsDigit(s[i]) then DigitRunEnd(s, i + 1) else i
  }

  /** The end of the match of `\b\d+(?:\.\d+)?\b` that starts at `i`, if any.
      Backtracking into `\d+` never helps: a shorter run is followed by a digit,
      so neither `.` nor `\b` can follow it. Hence the engine tries the maximal
      integer run together with the maximal fraction run first and, when no
      boundary follows that, the maximal integer run alone
      (MatchIsLongestCandidate states what this finds). */
  function MatchAt(s: string, i: nat): (m: Option<nat>)
    requires i <= |s|
    ensures m.Some? ==> i < m.value <= |s|
  {
    if !WordBoundary(s, i) || !(i < |s| && IsDigit(s[i])) then None
    else
      var e := DigitRunEnd(s, i);
      if e + 1 < |s| && s[e] == '.' && IsDigit(s[e + 1]) && WordBoundary(s, DigitRunEnd(s, e + 1)) then
        Some(DigitRunEnd(s, e + 1))
      else if WordBoundary(s, e) then Some(e)
      else None
  }

  /** The match at `i` is the longest candidate starting at `i`, and there is
      no match exactly when there is no candidate: the decimal form wins when a
      boundary follows its fraction digits, otherwise the integer form when a
      boundary follows it. */
  lemma MatchIsLongestCandidate(s: string, i: nat)
    requires i <= |s|
    ensures MatchAt(s, i).Some? ==> Candidate(s, i, MatchAt(s, i).value)
    ensures forall j: nat :: Candidate(s, i, j) ==> MatchAt(s, i).Some? && j <= MatchAt(s, i).value
  {
    CandidateStart(s, i);
    if WordBoundary(s, i) && i < |s| && IsDigit(s[i]) {
      var e := DigitRunEnd(s, i);
      CandidateEnds(s, i, e);
      if e + 1 < |s| && s[e] == '.' && IsDigit(s[e + 1]) && WordBoundary(s, DigitRunEnd(s, e + 1)) {
        DecimalIsCandidate(s, i, e, DigitRunEnd(s, e + 1));
      } else if WordBoundary(s, e) {
        IntegerIsCandidate(s, i, e);
      }
    }
  }

  /** A candidate starts at a digit on a word boundary. */
  lemma CandidateStart(s: string, i: nat)
    requires i <= |s|
    ensures forall j: nat :: Candidate(s, i, j) ==> i < |s| && IsDigit(s[i]) && WordBoundary(s, i)
  {
    forall j: nat | Candidate(s, i, j) ensures i < |s| && IsDigit(s[i]) && WordBoundary(s, i) {
      var t := s[i..j];
      assert t[0] == s[i];
      if !AllDigits(t) {
        var p: nat :| p < |t| && DecimalAt(t, p);
        assert t[..p][0] == t[0];
      }
    }
  }

  /** A run of digits from `i` to `j` with a non-digit (or the end) at `j` is the maximal run. */
  lemma RunEndUnique(s: string, i: nat, j: nat)
    requires i <= j <= |s|
    requires forall k | i <= k < j :: IsDigit(s[k])
    requires j == |s| || !IsDigit(s[j])
    ensures j == DigitRunEnd(s, i)
  {
  }

  lemma AllDigitsSlice(s: string, i: nat, j: nat)
    requires i <= j <= |s|
    requires AllDigits(s[i..j])
    ensures forall k | i <= k < j :: IsDigit(s[k])
  {
    forall k | i <= k < j ensures IsDigit(s[k]) {
      assert s[i..j][k - i] == s[k];
    }
  }

  /** Every candidate at `i` ends where the integer run ends or where the
      fraction run after it ends. */
  lemma CandidateEnds(s: string, i: nat, e: nat)
    requires i < |s| && e == DigitRunEnd(s, i)
    ensures forall j: nat :: Candidate(s, i, j) ==>
      j == e || (e + 1 < |s| && s[e] == '.' && j == DigitRunEnd(s, e + 1) && WordBoundary(s, j))
  {
    forall j: nat | Candidate(s, i, j)
      ensures j == e || (e + 1 < |s| && s[e] == '.' && j == DigitRunEnd(s, e + 1) && WordBoundary(s, j))
    {
      var t := s[i..j];
      assert |t| == j - i;
      if AllDigits(t) {
        AllDigitsSlice(s, i, j);
        RunEndUnique(s, i, j);
      } else {
        var p: nat :| p < |t| && DecimalAt(t, p);
        assert 0 < p < |t| - 1;
        assert t[..p] == s[i..i + p];
        assert t[p + 1..] == s[i + p + 1..j];
        AllDigitsSlice(s, i, i + p);
        AllDigitsSlice(s, i + p + 1, j);
        assert s[i + p] == t[p];
        RunEndUnique(s, i, i + p);
        RunEndUnique(s, i + p + 1, j);
        assert IsDigit(s[j - 1]);
      }
    }
  }

  lemma IntegerIsCandidate(s: string, i: nat, e: nat)
    requires i < |s| && IsDigit(s[i]) && WordBoundary(s, i)
    requires e == DigitRunEnd(s, i) && WordBoundary(s, e)
    ensures Candidate(s, i, e)
  {
    assert IsDigit(s[e - 1]);
  }

  lemma DecimalIsCandidate(s: string, i: nat, e: nat, f: nat)
    requires i < |s| && IsDigit(s[i]) && WordBoundary(s, i)
    requires e == DigitRunEnd(s, i)
    requires e + 1 < |s| && s[e] == '.' && IsDigit(s[e + 1])
    requires f == DigitRunEnd(s, e + 1) && WordBoundary(s, f)
    ensures Candidate(s, i, f)
  {
    var t := s[i..f];
    var p: nat := e - i;
    assert t[..p] == s[i..e];
    assert t[p + 1..] == s[e + 1..f];
    assert DecimalAt(t, p);
    assert IsDigit(s[f - 1]);
  }

  // ---------------------------------------------------------------------------
  // findall: successive non-overlapping matches, left to right. The scan is
  // stated over the table of match attempts at every position, so that its
  // proofs do not depend on how a single attempt works.
  // ---------------------------------------------------------------------------

  /** The extent `[start, end)` of one match in the scanned string. */
  datatype Span = Span(start: nat, end: nat)

  /** A table of match attempts: the attempt at `p`, if it succeeds, ends
      after `p` and within the text. */
  predicate Table(ms: seq<Option<nat>>) {
    forall p | 0 <= p < |ms| :: ms[p].Some? ==> p < ms[p].value <= |ms|
  }

  /** The match attempt at every position of `s`. */
  function Attempts(s: string): (ms: seq<Option<nat>>)
    ensures |ms| == |s| && Table(ms)
    ensures forall p | 0 <= p < |s| :: ms[p] == MatchAt(s, p)
  {
    seq(|s|, p requires 0 <= p < |s| => MatchAt(s, p))
  }

  /** Each span ends no later than any later span starts: increasing and non-overlapping. */
  predicate Ordered(r: seq<Span>) {
    forall k, l | 0 <= k < l < |r| :: r[k].end <= r[l].start
  }

  /** The matches found by scanning from position `from`: on a match the scan
      resumes where it ended, otherwise one position further on. */
  function Scan(ms: seq<Option<nat>>, from: nat): (r: seq<Span>)
    requires Table(ms) && from <= |ms|
    ensures forall k | 0 <= k < |r| ::
      from <= r[k].start < r[k].end <= |ms| && ms[r[k].start] == Some(r[k].end)
    ensures Ordered(r)
    decreases |ms| - from
  {
    if from == |ms| then []
    else
      match ms[from]
      case Some(j) => [Span(from, j)] + Scan(ms, j)
      case None => Scan(ms, from + 1)
  }

  /** Some match of `r` covers position `p`. */
  ghost predicate Covered(r: seq<Span>, p: nat) {
    exists k :: 0 <= k < |r| && r[k].start <= p < r[k].end
  }

  /** What a left-to-right scan for non-overlapping matches returns, stated
      without the scan: every element is a match, they are in increasing order
      and do not overlap, and no match starts at a position that none of them
      covers. */
  ghost predicate LeftmostFirst(ms: seq<Option<nat>>, from: nat, r: seq<Span>) {
    && (forall k | 0 <= k < |r| :: from <= r[k].start < |ms| && ms[r[k].start] == Some(r[k].end))
    && Ordered(r)
    && (forall p: nat | from <= p < |ms| && ms[p].Some? :: Covered(r, p))
  }

  /** Positions with no match starting there do not change the scan. */
  lemma {:induction false} SkipNoMatch(ms: seq<Option<nat>>, from: nat, to: nat)
    requires Table(ms) && from <= to <= |ms|
    requires forall p: nat | from <= p < to :: ms[p].None?
    ensures Scan(ms, from) == Scan(ms, to)
    decreases (to as int) - (from as int)
  {
    if from < to {
      assert ms[from].None?;
      SkipNoMatch(ms, from + 1, to);
    }
  }

  /** The scan misses no match. */
  lemma {:induction false} ScanIsLeftmostFirst(ms: seq<Option<nat>>, from: nat)
    requires Table(ms) && from <= |ms|
    ensures LeftmostFirst(ms, from, Scan(ms, from))
    decreases |ms| - from
  {
    if from < |ms| {
      match ms[from]
      case Some(j) =>
        ScanIsLeftmostFirst(ms, j);
        ConsLeftmostFirst(ms, from, j, Scan(ms, j));
      case None =>
        ScanIsLeftmostFirst(ms, from + 1);
    }
  }

  /** Prepending a span that ends before every element keeps the order. */
  lemma OrderedCons(x: Span, rest: seq<Span>)
    requires Ordered(rest)
    requires forall k | 0 <= k < |rest| :: x.start < x.end <= rest[k].start
    ensures Ordered([x] + rest)
  {
    var r := [x] + rest;
    forall k, l | 0 <= k < l < |r| ensures r[k].end <= r[l].start {
      assert r[l] == rest[l - 1];
      if k > 0 {
        assert r[k] == rest[k - 1];
      }
    }
  }

  /** A match at `from` followed by a sequence answering the description from its end. */
  lemma ConsLeftmostFirst(ms: seq<Option<nat>>, from: nat, j: nat, rest: seq<Span>)
    requires Table(ms) && from < |ms| && ms[from] == Some(j)
    requires LeftmostFirst(ms, j, rest)
    ensures LeftmostFirst(ms, from, [Span(from, j)] + rest)
  {
    var r := [Span(from, j)] + rest;
    forall k | 0 <= k < |r| ensures from <= r[k].start < |ms| && ms[r[k].start] == Some(r[k].end) {
      if k > 0 {
        assert r[k] == rest[k - 1];
      }
    }
    forall p: nat | from <= p < |ms| && ms[p].Some? ensures Covered(r, p) {
      if p < j {
        assert r[0].start <= p < r[0].end;
      } else {
        assert Covered(rest, p);
        var k :| 0 <= k < |rest| && rest[k].start <= p < rest[k].end;
        assert r[k + 1] == rest[k];
      }
    }
    OrderedCons(Span(from, j), rest);
  }

  /** In a sequence that answers the description, every match at or after
      `from` starts at or after the first element's start. */
  lemma FirstSpanLeast(ms: seq<Option<nat>>, from: nat, r: seq<Span>)
    requires Table(ms) && LeftmostFirst(ms, from, r) && r != []
    ensures forall p: nat | from <= p < |ms| && ms[p].Some? :: r[0].start <= p
  {
    forall p: nat | from <= p < |ms| && ms[p].Some? ensures r[0].start <= p {
      assert Covered(r, p);
      var k :| 0 <= k < |r| && r[k].start <= p < r[k].end;
      assert ms[r[0].start] == Some(r[0].end);
      assert k == 0 || r[0].end <= r[k].start;
    }
  }

  /** Dropping the first element leaves a sequence that answers the
      description from the first element's end. */
  lemma RestLeftmostFirst(ms: seq<Option<nat>>, from: nat, r: seq<Span>)
    requires Table(ms) && LeftmostFirst(ms, from, r) && r != []
    ensures LeftmostFirst(ms, r[0].end, r[1..])
  {
    var rest := r[1..];
    assert ms[r[0].start] == Some(r[0].end);
    forall k | 0 <= k < |rest|
      ensures r[0].end <= rest[k].start < |ms| && ms[rest[k].start] == Some(rest[k].end)
    {
      assert rest[k] == r[k + 1];
    }
    forall p: nat | r[0].end <= p < |ms| && ms[p].Some? ensures Covered(rest, p) {
      assert Covered(r, p);
      var k :| 0 <= k < |r| && r[k].start <= p < r[k].end;
      assert k != 0;
      assert rest[k - 1] == r[k];
    }
  }

  /** Only one sequence of matches answers the description: the scan's. */
  lemma {:induction false} LeftmostFirstUnique(ms: seq<Option<nat>>, from: nat, r: seq<Span>)
    requires Table(ms) && from <= |ms|
    requires LeftmostFirst(ms, from, r)
    ensures r == Scan(ms, from)
    decreases |r|
  {
    if r == [] {
      SkipNoMatch(ms, from, |ms|);
    } else {
      FirstSpanLeast(ms, from, r);
      RestLeftmostFirst(ms, from, r);
      var a, b := r[0].start, r[0].end;
      SkipNoMatch(ms, from, a);
      assert ms[a] == Some(b);
      LeftmostFirstUnique(ms, b, r[1..]);
      assert r == [Span(a, b)] + r[1..];
    }
  }

  /** The spans `re.findall` reports for `s`. */
  function Spans(s: string): (r: seq<Span>)
    ensures forall k | 0 <= k < |r| ::
      r[k].start < r[k].end <= |s| && MatchAt(s, r[k].start) == Some(r[k].end)
    ensures Ordered(r)
  {
    Scan(Attempts(s), 0)
  }

  /** `r` answers the description of `findall` on `s`: every element is a
      match of the pattern at its start, the elements are increasing and do
      not overlap, and every position where a match starts is covered. */
  ghost predicate IsFindAll(s: string, r: seq<Span>) {
    && (forall k | 0 <= k < |r| :: r[k].start < |s| && MatchAt(s, r[k].start) == Some(r[k].end))
    && Ordered(r)
    && (forall p: nat | p < |s| && MatchAt(s, p).Some? :: Covered(r, p))
  }

  /** The spans of `s` are exactly the sequence answering the description of `findall`. */
  lemma SpansCharacterised(s: string, r: seq<Span>)
    ensures IsFindAll(s, Spans(s))
    ensures IsFindAll(s, r) ==> r == Spans(s)
  {
    var ms := Attempts(s);
    ScanIsLeftmostFirst(ms, 0);
    if IsFindAll(s, r) {
      assert LeftmostFirst(ms, 0, r);
      LeftmostFirstUnique(ms, 0, r);
    }
  }

  /** Every span of the scan is a candidate. */
  lemma SpansAreCandidates(s: string)
    ensures forall k | 0 <= k < |Spans(s)| :: Candidate(s, Spans(s)[k].start, Spans(s)[k].end)
  {
    var r := Spans(s);
    forall k | 0 <= k < |r| ensures Candidate(s, r[k].start, r[k].end) {
      MatchIsLongestCandidate(s, r[k].start);
    }
  }

  /** `re.findall`: the matched substrings, in scan order; each is a numeral. */
  function FindAll(s: string): (tokens: seq<string>)
    ensures |tokens| == |Spans(s)|
    ensures forall k | 0 <= k < |tokens| ::
      tokens[k] == s[Spans(s)[k].start..Spans(s)[k].end] && IsNumeral(tokens[k])
  {
    var r := Spans(s);
    SpansAreCandidates(s);
    seq(|r|, k requires 0 <= k < |r| => s[r[k].start..r[k].end])
  }

  /** Every token stands between non-word characters (or the edges of the
      text), tokens appear at increasing positions, and a non-word character
      separates each token from the next. */
  lemma {:induction false} TokensAreBounded(s: string)
    ensures forall k | 0 <= k < |FindAll(s)| ::
      Candidate(s, Spans(s)[k].start, Spans(s)[k].end)
    ensures forall k | 0 <= k < |FindAll(s)| - 1 :: Spans(s)[k].end < Spans(s)[k + 1].start
  {
    var r := Spans(s);
    SpansAreCandidates(s);
    forall k | 0 <= k < |r| - 1 ensures r[k].end < r[k + 1].start {
      CandidateStart(s, r[k + 1].start);
      assert Candidate(s, r[k + 1].start, r[k + 1].end);
    }
  }

  lemma ExampleDecimalNeedsBoundary()
    ensures FindAll("1.5x") == ["1"]
  {
    var s := "1.5x";
    assert MatchAt(s, 0) == Some(1);
    assert MatchAt(s, 1) == None;
    assert MatchAt(s, 2) == None;
    assert MatchAt(s, 3) == None;
    var ms := Attempts(s);
    assert Scan(ms, 1) == Scan(ms, 2) == Scan(ms, 3) == Scan(ms, 4) == [];
    assert Spans(s) == [Span(0, 1)];
    assert FindAll(s)[0] == s[0..1] == "1";
  }

  lemma ExampleTwoPoints()
    ensures FindAll("1.2.3") == ["1.2", "3"]
  {
    var s := "1.2.3";
    assert MatchAt(s, 0) == Some(3);
    assert MatchAt(s, 3) == None;
    assert MatchAt(s, 4) == Some(5);
    var ms := Attempts(s);
    assert Scan(ms, 4) == [Span(4, 5)] + Scan(ms, 5) == [Span(4, 5)];
    assert Scan(ms, 3) == Scan(ms, 4);
    assert Spans(s) == [Span(0, 3), Span(4, 5)];
    assert FindAll(s)[0] == s[0..3] == "1.2";
    assert FindAll(s)[1] == s[4..5] == "3";
  }

  lemma ExampleGluedToWord()
    ensures FindAll("12abc") == []
    ensures FindAll("1_000") == []
  {
    var s, t := "12abc", "1_000";
    assert DigitRunEnd(s, 0) == 2 && DigitRunEnd(t, 0) == 1;
    assert forall p | 0 <= p < 5 :: Attempts(s)[p] == None;
    assert forall p | 0 <= p < 5 :: Attempts(t)[p] == None;
    SkipNoMatch(Attempts(s), 0, 5);
    SkipNoMatch(Attempts(t), 0, 5);
  }

  /** A numeral's point, if it has one, is where its leading digit run ends. */
  lemma NumeralPoint(t: string)
    requires IsNumeral(t)
    ensures var p := DigitRunEnd(t, 0);
      (p == |t| && AllDigits(t)) || (p < |t| && DecimalAt(t, p))
  {
    var p := DigitRunEnd(t, 0);
    if AllDigits(t) {
      RunEndUnique(t, 0, |t|);
    } else {
      var q: nat :| q < |t| && DecimalAt(t, q);
      assert forall k | 0 <= k < q :: t[..q][k] == t[k];
      RunEndUnique(t, 0, q);
    }
  }

  /** The point of a decimal numeral is where its leading digit run ends, so
      a numeral has at most one point. */
  lemma DecimalPointIsRunEnd(t: string, q: nat)
    requires DecimalAt(t, q)
    ensures q == DigitRunEnd(t, 0) && !AllDigits(t)
  {
    assert forall k | 0 <= k < q :: t[..q][k] == t[k];
    RunEndUnique(t, 0, q);
    assert !IsDigit(t[q]);
  }
}
