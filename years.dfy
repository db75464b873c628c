/**
  Years of experience in one sentence: what `re.findall` returns for the four patterns
  `\d+ years`, `\d+ year`, `\d+\+ years` and `\d+\+ year`, each match's leading digit run
  parsed with `int`, and the largest of those numbers.
 */
module Years {
  import opened Text

  /** The literal tails of the four patterns, in the order the extractor tries them. */
  const YearSuffixes: seq<string> := [" years", " year", "+ years", "+ year"]

  /** The larger of two numbers (Python's `max`). */
  function Max(a: nat, b: nat): (m: nat)
    ensures m >= a && m >= b && (m == a || m == b)
  {
    if a >= b then a else b
  }

  /** The end of the maximal run of digits that starts at `i`. */
  function RunEnd(t: string, i: nat): (j: nat)
    requires i <= |t|
    ensures i <= j <= |t|
    ensures forall k :: i <= k < j ==> IsDigit(t[k])
    ensures j == |t| || !IsDigit(t[j])
    decreases |t| - i
  {
    if i < |t| && IsDigit(t[i]) then RunEnd(t, i + 1) else i
  }

  /** Index `p` begins a maximal run of digits. */
  predicate RunStart(t: string, p: int) {
    0 <= p < |t| && IsDigit(t[p]) && (p == 0 || !IsDigit(t[p - 1]))
  }

  /** The value of one ASCII digit. */
  function DigitValue(c: char): (d: nat)
    requires IsDigit(c)
    ensures d <= 9
  {
    c as int - '0' as int
  }

  /** Python's `int` on a string of ASCII digits. */
  function Value(ds: string): nat
    requires forall k :: 0 <= k < |ds| ==> IsDigit(ds[k])
  {
    if ds == [] then 0 else 10 * Value(ds[..|ds| - 1]) + DigitValue(ds[|ds| - 1])
  }

  /** The number written by the digit run starting at `p`. */
  function RunValue(t: string, p: nat): nat
    requires p <= |t|
  {
    Value(t[p..RunEnd(t, p)])
  }

  /**
    `re.findall(r'\d+' + suffix, t)` scanning from `i`, each match mapped to the value of its digits.
    At a digit the greedy `\d+` takes the whole run; giving back a digit cannot help, since the
    suffix begins with ' ' or '+'. A failed position moves the scan on by one character, a match
    moves it past the match.
   */
  function FindAll(t: string, suffix: string, i: nat): (values: seq<nat>)
    requires suffix in YearSuffixes
    requires i <= |t|
    ensures 6 * |values| <= |t| - i
    decreases |t| - i
  {
    if i == |t| then []
    else if IsDigit(t[i]) && OccursAt(t, suffix, RunEnd(t, i)) then
      SuffixShape(suffix);
      [RunValue(t, i)] + FindAll(t, suffix, RunEnd(t, i) + |suffix|)
    else FindAll(t, suffix, i + 1)
  }

  /** A maximal digit run at `p` directly followed by `suffix`. */
  predicate Mention(t: string, p: int, suffix: string) {
    RunStart(t, p) && OccursAt(t, suffix, RunEnd(t, p))
  }

  /** Index `i` does not fall strictly inside a run of digits. */
  predicate Aligned(t: string, i: nat) {
    i == 0 || i >= |t| || !IsDigit(t[i]) || !IsDigit(t[i - 1])
  }

  lemma SuffixShape(suffix: string)
    requires suffix in YearSuffixes
    ensures |suffix| >= 5 && forall k :: 0 <= k < |suffix| ==> !IsDigit(suffix[k])
  {
  }

  /** Inside a run whose end has no suffix, the scan fails at every position up to the run's end. */
  lemma {:induction false} SkipRun(t: string, suffix: string, k: nat)
    requires suffix in YearSuffixes
    requires k <= |t|
    requires !OccursAt(t, suffix, RunEnd(t, k))
    ensures FindAll(t, suffix, k) == FindAll(t, suffix, RunEnd(t, k))
    decreases |t| - k
  {
    if k < |t| && IsDigit(t[k]) {
      assert RunEnd(t, k) == RunEnd(t, k + 1);
      SkipRun(t, suffix, k + 1);
    }
  }

  /** Some maximal run at or after `i` followed by `suffix` has value `v`. */
  ghost predicate MentionedFrom(t: string, suffix: string, i: nat, v: nat) {
    exists p :: i <= p && Mention(t, p, suffix) && v == RunValue(t, p)
  }

  /** No maximal run followed by the suffix starts strictly inside a match. */
  lemma NoMentionInsideMatch(t: string, suffix: string, i: nat)
    requires suffix in YearSuffixes
    requires i < |t| && IsDigit(t[i]) && OccursAt(t, suffix, RunEnd(t, i))
    ensures forall p :: i < p < RunEnd(t, i) + |suffix| ==> !Mention(t, p, suffix)
  {
    SuffixShape(suffix);
    var j := RunEnd(t, i);
    forall p | i < p < j + |suffix|
      ensures !Mention(t, p, suffix)
    {
      if p < j {
        assert IsDigit(t[p - 1]);
      } else {
        assert t[p] == suffix[p - j];
      }
    }
  }

  /** No maximal run followed by the suffix starts inside a digit run whose end lacks the suffix. */
  lemma NoMentionInsideRun(t: string, suffix: string, i: nat)
    requires suffix in YearSuffixes
    requires i < |t| && IsDigit(t[i]) && !OccursAt(t, suffix, RunEnd(t, i))
    ensures forall p :: i <= p < RunEnd(t, i) ==> !Mention(t, p, suffix)
  {
    forall p | i <= p < RunEnd(t, i)
      ensures !Mention(t, p, suffix)
    {
      if p > i {
        assert IsDigit(t[p - 1]);
      } else {
        assert RunEnd(t, p) == RunEnd(t, i);
      }
    }
  }

  /** The scan from an aligned position finds exactly the maximal runs followed by the suffix. */
  lemma {:induction false} FindAllExact(t: string, suffix: string, i: nat)
    requires suffix in YearSuffixes
    requires i <= |t| && Aligned(t, i)
    ensures forall v :: v in FindAll(t, suffix, i) <==> MentionedFrom(t, suffix, i, v)
    decreases |t| - i
  {
    SuffixShape(suffix);
    if i == |t| {
    } else if IsDigit(t[i]) && OccursAt(t, suffix, RunEnd(t, i)) {
      var e := RunEnd(t, i) + |suffix|;
      assert t[e - 1] == suffix[|suffix| - 1];
      FindAllExact(t, suffix, e);
      NoMentionInsideMatch(t, suffix, i);
      assert Mention(t, i, suffix);
      forall v
        ensures v in FindAll(t, suffix, i) <==> MentionedFrom(t, suffix, i, v)
      {
        if MentionedFrom(t, suffix, i, v) {
          var p :| i <= p && Mention(t, p, suffix) && v == RunValue(t, p);
          assert p == i || e <= p;
        }
      }
    } else if IsDigit(t[i]) {
      var j := RunEnd(t, i);
      SkipRun(t, suffix, i);
      FindAllExact(t, suffix, j);
      NoMentionInsideRun(t, suffix, i);
      forall v
        ensures v in FindAll(t, suffix, i) <==> MentionedFrom(t, suffix, i, v)
      {
        if MentionedFrom(t, suffix, i, v) {
          var p :| i <= p && Mention(t, p, suffix) && v == RunValue(t, p);
          assert j <= p;
        }
      }
    } else {
      FindAllExact(t, suffix, i + 1);
      forall v
        ensures v in FindAll(t, suffix, i) <==> MentionedFrom(t, suffix, i, v)
      {
        if MentionedFrom(t, suffix, i, v) {
          var p :| i <= p && Mention(t, p, suffix) && v == RunValue(t, p);
          assert i + 1 <= p;
        }
      }
    }
  }

  /** The matches of the first `n` patterns, pattern by pattern, in the order the extractor visits them. */
  function PatternMatches(t: string, n: nat): seq<nat>
    requires n <= |YearSuffixes|
  {
    if n == 0 then [] else PatternMatches(t, n - 1) + FindAll(t, YearSuffixes[n - 1], 0)
  }

  /** The largest number of a sequence, 0 for the empty one. */
  function SeqMax(xs: seq<nat>): nat {
    if xs == [] then 0 else Max(SeqMax(xs[..|xs| - 1]), xs[|xs| - 1])
  }

  /** The years a lower-cased sentence reports: the largest match of any of the four patterns. */
  function SentenceYears(t: string): nat {
    SeqMax(PatternMatches(t, 4))
  }

  /** A year mention: a maximal digit run followed by " year" or "+ year" (so " years" too). */
  predicate YearMention(t: string, p: int) {
    RunStart(t, p) && (OccursAt(t, " year", RunEnd(t, p)) || OccursAt(t, "+ year", RunEnd(t, p)))
  }

  /** `SeqMax` is an upper bound of the sequence and one of its elements (or 0 when empty). */
  lemma {:induction false} SeqMaxIsMax(xs: seq<nat>)
    ensures forall x :: x in xs ==> x <= SeqMax(xs)
    ensures xs == [] || SeqMax(xs) in xs
  {
    if xs != [] {
      var init := xs[..|xs| - 1];
      SeqMaxIsMax(init);
      assert xs == init + [xs[|xs| - 1]];
    }
  }

  /** Extending a prefix of `ys` by its next element raises the maximum to that element at most. */
  lemma SeqMaxExtend(xs: seq<nat>, ys: seq<nat>, m: nat)
    requires m < |ys|
    ensures SeqMax(xs + ys[..m + 1]) == Max(SeqMax(xs + ys[..m]), ys[m])
  {
    var zs := xs + ys[..m + 1];
    assert zs[..|zs| - 1] == xs + ys[..m];
  }

  /** The maximum of a concatenation is the larger of the two maxima. */
  lemma {:induction false} SeqMaxAppend(a: seq<nat>, b: seq<nat>)
    ensures SeqMax(a + b) == Max(SeqMax(a), SeqMax(b))
    decreases |b|
  {
    if b == [] {
      assert a + b == a;
    } else {
      var init := b[..|b| - 1];
      assert (a + b)[..|a + b| - 1] == a + init;
      SeqMaxAppend(a, init);
    }
  }

  /** A number is a match of one of the four patterns exactly when it is the value of a year mention. */
  lemma PatternMatchesAreMentions(t: string)
    ensures forall v :: v in PatternMatches(t, 4) <==>
      exists p :: YearMention(t, p) && v == RunValue(t, p)
  {
    var m0, m1 := FindAll(t, YearSuffixes[0], 0), FindAll(t, YearSuffixes[1], 0);
    var m2, m3 := FindAll(t, YearSuffixes[2], 0), FindAll(t, YearSuffixes[3], 0);
    assert PatternMatches(t, 1) == m0;
    assert PatternMatches(t, 2) == m0 + m1;
    assert PatternMatches(t, 3) == m0 + m1 + m2;
    assert PatternMatches(t, 4) == m0 + m1 + m2 + m3;
    FindAllExact(t, YearSuffixes[0], 0);
    FindAllExact(t, YearSuffixes[1], 0);
    FindAllExact(t, YearSuffixes[2], 0);
    FindAllExact(t, YearSuffixes[3], 0);
    forall p | 0 <= p
      ensures Mention(t, p, " years") ==> Mention(t, p, " year")
      ensures Mention(t, p, "+ years") ==> Mention(t, p, "+ year")
    {
      PluralIsMention(t, p);
    }
  }

  /** A run followed by " years" is also followed by " year", and likewise for "+ years". */
  lemma PluralIsMention(t: string, p: int)
    ensures Mention(t, p, " years") ==> Mention(t, p, " year")
    ensures Mention(t, p, "+ years") ==> Mention(t, p, "+ year")
  {
    if RunStart(t, p) {
      var j := RunEnd(t, p);
      if OccursAt(t, " years", j) {
        OccursPrefix(t, " years", j, 5);
      }
      if OccursAt(t, "+ years", j) {
        OccursPrefix(t, "+ years", j, 6);
      }
    }
  }

  /** The years of a sentence bound every year mention in it and are the value of one of them, or 0 when it has none. */
  lemma SentenceYearsIsLargestMention(t: string)
    ensures forall p :: YearMention(t, p) ==> RunValue(t, p) <= SentenceYears(t)
    ensures SentenceYears(t) == 0 || exists p :: YearMention(t, p) && RunValue(t, p) == SentenceYears(t)
  {
    PatternMatchesAreMentions(t);
    SeqMaxIsMax(PatternMatches(t, 4));
    forall p | YearMention(t, p)
      ensures RunValue(t, p) <= SentenceYears(t)
    {
      assert RunValue(t, p) in PatternMatches(t, 4);
    }
  }
}
