/**
  The string operations of Python that the analyzer is built from: `str.lower`, `sub in s`,
  `s.find(sub)`, `s.strip()`, `s.split(c)` and `s.split()`. Characters are Unicode scalar
  values, as in Python; case mapping, digits and whitespace are restricted to ASCII.
 */
module Text {

  /** ASCII decimal digits: how the model reads `str.isdigit` and the regex class `\d`. */
  predicate IsDigit(c: char) {
    '0' <= c <= '9'
  }

  /**
    The ASCII whitespace of `str.isspace`, which `str.split()`, `str.strip()` and the regex class
    `\s` share: space, tab, line feed, carriage return, vertical tab, form feed and the four
    separators U+001C to U+001F.
   */
  predicate IsSpace(c: char) {
    c == ' ' || c == '\t' || c == '\n' || c == '\r' || c == '\U{B}' || c == '\U{C}'
    || c == '\U{1C}' || c == '\U{1D}' || c == '\U{1E}' || c == '\U{1F}'
  }

  predicate IsUpper(c: char) {
    'A' <= c <= 'Z'
  }

  /** `str.lower` on one character. */
  function LowerChar(c: char): (r: char)
    ensures !IsUpper(r)
    ensures IsSpace(r) == IsSpace(c) && IsDigit(r) == IsDigit(c)
    ensures !IsUpper(c) ==> r == c
  {
    if IsUpper(c) then (c as int - 'A' as int + 'a' as int) as char else c
  }

  /** `s.lower()`: maps every character on its own, so it keeps length and positions. */
  function Lower(s: string): (r: string)
    ensures |r| == |s|
    ensures forall i :: 0 <= i < |s| ==> r[i] == LowerChar(s[i])
  {
    seq(|s|, i requires 0 <= i < |s| => LowerChar(s[i]))
  }

  /** A string with no upper-case letter, such as every result of `Lower`. */
  predicate IsLowerCase(s: string) {
    forall i :: 0 <= i < |s| ==> !IsUpper(s[i])
  }

  /** `sub` occurs in `s` starting at index `i`. */
  predicate OccursAt(s: string, sub: string, i: int) {
    0 <= i && i + |sub| <= |s| && s[i..i + |sub|] == sub
  }

  /** An occurrence of `sub` is also one of each of its prefixes. */
  lemma OccursPrefix(s: string, sub: string, i: int, n: nat)
    requires OccursAt(s, sub, i) && n <= |sub|
    ensures OccursAt(s, sub[..n], i)
  {
    assert s[i..i + n] == s[i..i + |sub|][..n];
  }

  /** Python's `sub in s`. */
  predicate Contains(s: string, sub: string) {
    exists i | 0 <= i <= |s| - |sub| :: OccursAt(s, sub, i)
  }

  /** Python's `s.find(sub)`: the least index at which `sub` occurs, or -1 when it does not. */
  function Find(s: string, sub: string): (r: int)
    ensures r == -1 <==> !Contains(s, sub)
    ensures r != -1 ==> OccursAt(s, sub, r) && forall j :: 0 <= j < r ==> !OccursAt(s, sub, j)
  {
    FindFrom(s, sub, 0)
  }

  function FindFrom(s: string, sub: string, i: nat): (r: int)
    requires forall j :: 0 <= j < i ==> !OccursAt(s, sub, j)
    ensures r == -1 <==> !Contains(s, sub)
    ensures r != -1 ==> i <= r && OccursAt(s, sub, r) && forall j :: 0 <= j < r ==> !OccursAt(s, sub, j)
    decreases |s| - i
  {
    if i + |sub| > |s| then -1
    else if s[i..i + |sub|] == sub then assert OccursAt(s, sub, i); i
    else FindFrom(s, sub, i + 1)
  }

  /** The first index at or after `i` that is not whitespace (or `|s|`). */
  function SkipSpaces(s: string, i: nat): (a: nat)
    requires i <= |s|
    ensures i <= a <= |s|
    ensures forall j :: i <= j < a ==> IsSpace(s[j])
    ensures a == |s| || !IsSpace(s[a])
    decreases |s| - i
  {
    if i < |s| && IsSpace(s[i]) then SkipSpaces(s, i + 1) else i
  }

  /** The least index `b` in `lo..hi` such that `s[b..hi]` is all whitespace. */
  function SkipSpacesBack(s: string, lo: nat, hi: nat): (b: nat)
    requires lo <= hi <= |s|
    ensures lo <= b <= hi
    ensures forall j :: b <= j < hi ==> IsSpace(s[j])
    ensures b == lo || !IsSpace(s[b - 1])
    decreases hi
  {
    if hi > lo && IsSpace(s[hi - 1]) then SkipSpacesBack(s, lo, hi - 1) else hi
  }

  /** The number of leading whitespace characters that `strip` removes. */
  function StripStart(s: string): (a: nat)
    ensures a <= |s|
    ensures forall j :: 0 <= j < a ==> IsSpace(s[j])
    ensures a == |s| || !IsSpace(s[a])
  {
    SkipSpaces(s, 0)
  }

  /** The index at which the trailing whitespace that `strip` removes begins. */
  function StripEnd(s: string): (b: nat)
    ensures StripStart(s) <= b <= |s|
    ensures forall j :: b <= j < |s| ==> IsSpace(s[j])
    ensures StripStart(s) < |s| ==> StripStart(s) < b && !IsSpace(s[b - 1])
  {
    SkipSpacesBack(s, StripStart(s), |s|)
  }

  /** `s.strip()`: the slice of `s` between its leading and its trailing whitespace. */
  function Strip(s: string): (r: string)
    ensures r == [] || (!IsSpace(r[0]) && !IsSpace(r[|r| - 1]))
  {
    s[StripStart(s)..StripEnd(s)]
  }

  /** A non-empty word without whitespace inside `s` survives `strip`, at its old offset less the removed prefix. */
  lemma StripKeepsWord(s: string, w: string, o: nat)
    requires w != [] && forall j :: 0 <= j < |w| ==> !IsSpace(w[j])
    requires OccursAt(s, w, o)
    ensures StripStart(s) <= o && o + |w| <= StripEnd(s)
    ensures OccursAt(Strip(s), w, o - StripStart(s))
  {
    assert s[o] == w[0] && !IsSpace(s[o]);
    assert s[o + |w| - 1] == w[|w| - 1] && !IsSpace(s[o + |w| - 1]);
    var a, b := StripStart(s), StripEnd(s);
    assert a <= o;
    assert o + |w| <= b;
    var r := Strip(s);
    forall j | 0 <= j < |w|
      ensures r[o - a + j] == w[j]
    {
      assert r[o - a + j] == s[o + j];
      assert s[o..o + |w|][j] == w[j];
    }
    assert r[o - a..o - a + |w|] == w;
  }

  /** `strip` removes only whitespace, and never lengthens. */
  lemma StripIsSlice(s: string)
    ensures |Strip(s)| <= |s|
    ensures forall j :: 0 <= j < |Strip(s)| ==> Strip(s)[j] == s[StripStart(s) + j]
  {
  }

  /** Python's `s.split(c)` for a one-character separator: the pieces between the separators, empty ones included. */
  function Split(s: string, c: char): (r: seq<string>)
    ensures |r| >= 1
    ensures forall k :: 0 <= k < |r| ==> c !in r[k]
  {
    if s == [] then [[]]
    else
      var rest := Split(s[1..], c);
      if s[0] == c then [[]] + rest else [[s[0]] + rest[0]] + rest[1..]
  }

  /** Splitting around one separator between two separator-free pieces gives exactly those pieces. */
  lemma {:induction false} SplitAround(a: string, b: string, c: char)
    requires c !in a && c !in b
    ensures Split(a + [c] + b, c) == [a, b]
    decreases |a|
  {
    if a == [] {
      assert [c] + b == [c] + b;
      assert ([c] + b)[1..] == b;
      SplitNone(b, c);
    } else {
      var s := a + [c] + b;
      assert s[1..] == a[1..] + [c] + b;
      SplitAround(a[1..], b, c);
      assert [s[0]] + a[1..] == a;
    }
  }

  /** A string without the separator splits into itself alone. */
  lemma {:induction false} SplitNone(s: string, c: char)
    requires c !in s
    ensures Split(s, c) == [s]
  {
    if s != [] {
      assert c !in s[1..];
      SplitNone(s[1..], c);
      assert [s[0]] + s[1..] == s;
    }
  }

  /** The end of the run of non-whitespace characters that starts at `i`. */
  function WordEnd(s: string, i: nat): (e: nat)
    requires i <= |s|
    ensures i <= e <= |s|
    ensures forall j :: i <= j < e ==> !IsSpace(s[j])
    ensures e == |s| || IsSpace(s[e])
    decreases |s| - i
  {
    if i < |s| && !IsSpace(s[i]) then WordEnd(s, i + 1) else i
  }

  /** A non-empty string none of whose characters is whitespace. */
  predicate IsWord(w: string) {
    w != [] && forall j :: 0 <= j < |w| ==> !IsSpace(w[j])
  }

  /** Python's `s.split()`: the maximal runs of non-whitespace characters, in order. */
  function Words(s: string): (r: seq<string>)
    ensures forall k :: 0 <= k < |r| ==> IsWord(r[k])
    decreases |s|
  {
    var a := StripStart(s);
    if a == |s| then []
    else
      var e := WordEnd(s, a);
      [s[a..e]] + Words(s[e..])
  }

  /** A string that begins with a word followed by a space has that word as its first `split()` token. */
  lemma LeadingWord(w: string, rest: string)
    requires IsWord(w)
    ensures var ws := Words(w + [' '] + rest); |ws| >= 1 && ws[0] == w
  {
    var s := w + [' '] + rest;
    assert s[0] == w[0];
    assert StripStart(s) == 0;
    assert forall j :: 0 <= j < |w| ==> s[j] == w[j];
    assert s[|w|] == ' ';
    var e := WordEnd(s, 0);
    assert e <= |w| by {
      assert IsSpace(s[|w|]);
    }
    assert e >= |w|;
    assert s[..|w|] == w;
  }

  /** A space followed by a word has that word as its only `split()` token. */
  lemma SpaceThenWord(w: string)
    requires IsWord(w)
    ensures Words([' '] + w) == [w]
  {
    var t := [' '] + w;
    assert t[1] == w[0];
    assert StripStart(t) == 1 by {
      assert SkipSpaces(t, 1) == 1;
    }
    assert forall j :: 1 <= j < |t| ==> t[j] == w[j - 1];
    assert WordEnd(t, 1) == |t|;
    assert t[1..|t|] == w;
    assert t[|t|..] == [];
  }

  /** Two words joined by a space are exactly the two `split()` tokens. */
  lemma TwoWords(a: string, b: string)
    requires IsWord(a) && IsWord(b)
    ensures Words(a + [' '] + b) == [a, b]
  {
    var s := a + [' '] + b;
    LeadingWord(a, b);
    assert StripStart(s) == 0 by {
      assert s[0] == a[0];
    }
    var e := WordEnd(s, 0);
    assert e == |a| by {
      assert forall j :: 0 <= j < |a| ==> s[j] == a[j];
      assert IsSpace(s[|a|]);
    }
    assert s[e..] == [' '] + b;
    SpaceThenWord(b);
  }

  /** No element occurs twice. */
  predicate NoDuplicates<T(==)>(s: seq<T>) {
    forall i, j :: 0 <= i < j < |s| ==> s[i] != s[j]
  }

  /** Two duplicate-free sequences with no common element concatenate to a duplicate-free one. */
  lemma NoDuplicatesConcat<T>(a: seq<T>, b: seq<T>)
    requires NoDuplicates(a) && NoDuplicates(b)
    requires forall x :: x in a ==> x !in b
    ensures NoDuplicates(a + b)
  {
    forall i, j | 0 <= i < j < |a + b|
      ensures (a + b)[i] != (a + b)[j]
    {
      if j >= |a| && i < |a| {
        assert (a + b)[i] in a && (a + b)[j] == b[j - |a|];
      }
    }
  }

  /** Python's `set(xs)`. */
  function ToSet(xs: seq<string>): (r: set<string>)
    ensures forall x :: x in r <==> x in xs
  {
    set x | x in xs
  }
}
