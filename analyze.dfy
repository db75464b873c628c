/**
  The two text steps of `analyze_resume` that do not depend on the NLP model: the clean-up
  of the extracted text (comma runs to ", ", whitespace runs to " ", then `strip`), and the
  filter that drops from the matched skills every skill whose lower-case form is a token of
  the name, the email or the phone number.
 */
module Analyze {
  import opened Wrappers
  import opened Text
  import opened Profile

  // ---------------------------------------------------------------- clean-up

  /** The end of the run of commas that starts at `i`. */
  function CommaRunEnd(s: string, i: nat): (j: nat)
    requires i <= |s|
    ensures i <= j <= |s|
    ensures forall k :: i <= k < j ==> s[k] == ','
    ensures j == |s| || s[j] != ','
    decreases |s| - i
  {
    if i < |s| && s[i] == ',' then CommaRunEnd(s, i + 1) else i
  }

  /** `re.sub(r',+', ', ', s)`: every maximal run of commas becomes one comma and one space. */
  function CollapseCommas(s: string): (r: string)
    ensures (forall k :: 0 <= k < |s| ==> s[k] != ',') ==> r == s
    ensures r == [] <==> s == []
    decreases |s|
  {
    if s == [] then []
    else if s[0] == ',' then ", " + CollapseCommas(s[CommaRunEnd(s, 0)..])
    else [s[0]] + CollapseCommas(s[1..])
  }

  /** `re.sub(r'\s+', ' ', s)`: every maximal run of whitespace becomes one space. */
  function CollapseSpaces(s: string): (r: string)
    ensures |r| <= |s|
    ensures r == [] <==> s == []
    ensures (forall k :: 0 <= k < |s| ==> !IsSpace(s[k])) ==> r == s
    decreases |s|
  {
    if s == [] then []
    else if IsSpace(s[0]) then " " + CollapseSpaces(s[SkipSpaces(s, 0)..])
    else [s[0]] + CollapseSpaces(s[1..])
  }

  /** The clean-up: commas first, then whitespace, then `strip`. */
  function Clean(s: string): (r: string)
    ensures r == [] || (!IsSpace(r[0]) && !IsSpace(r[|r| - 1]))
    ensures (forall k :: 0 <= k < |s| ==> !IsSpace(s[k]) && s[k] != ',') ==> r == s
  {
    Strip(CollapseSpaces(CollapseCommas(s)))
  }

  /** Every comma is directly followed by a whitespace character. */
  predicate CommasBeforeSpace(s: string) {
    forall i :: 0 <= i < |s| && s[i] == ',' ==> i + 1 < |s| && IsSpace(s[i + 1])
  }

  /** Every comma is directly followed by a plain space. */
  predicate CommasSpaced(s: string) {
    forall i :: 0 <= i < |s| && s[i] == ',' ==> i + 1 < |s| && s[i + 1] == ' '
  }

  /** The only whitespace is the plain space, and never two in a row. */
  predicate SingleSpaced(s: string) {
    (forall i :: 0 <= i < |s| && IsSpace(s[i]) ==> s[i] == ' ')
    && (forall i :: 0 <= i < |s| - 1 ==> !(IsSpace(s[i]) && IsSpace(s[i + 1])))
  }

  /** No two commas in a row. */
  predicate NoAdjacentCommas(s: string) {
    forall i :: 0 <= i < |s| - 1 ==> !(s[i] == ',' && s[i + 1] == ',')
  }

  /** After the comma step every comma is followed by a space. */
  lemma {:induction false} CollapseCommasSpaced(s: string)
    ensures CommasSpaced(CollapseCommas(s))
    decreases |s|
  {
    if s != [] {
      if s[0] == ',' {
        var j := CommaRunEnd(s, 0);
        CollapseCommasSpaced(s[j..]);
        var r := ", " + CollapseCommas(s[j..]);
        assert forall i :: 2 <= i < |r| ==> r[i] == CollapseCommas(s[j..])[i - 2];
      } else {
        CollapseCommasSpaced(s[1..]);
        var r := [s[0]] + CollapseCommas(s[1..]);
        assert forall i :: 1 <= i < |r| ==> r[i] == CollapseCommas(s[1..])[i - 1];
      }
    }
  }

  /** The whitespace step begins with a space exactly where its input begins with whitespace. */
  lemma CollapseSpacesHead(s: string)
    requires s != []
    ensures CollapseSpaces(s) != []
    ensures IsSpace(s[0]) ==> CollapseSpaces(s)[0] == ' '
    ensures !IsSpace(s[0]) ==> CollapseSpaces(s)[0] == s[0]
  {
  }

  /** The whitespace step leaves single plain spaces only. */
  lemma {:induction false} CollapseSpacesSingle(s: string)
    ensures SingleSpaced(CollapseSpaces(s))
    decreases |s|
  {
    if s != [] {
      if IsSpace(s[0]) {
        var j := SkipSpaces(s, 0);
        var rest := CollapseSpaces(s[j..]);
        CollapseSpacesSingle(s[j..]);
        if j < |s| {
          CollapseSpacesHead(s[j..]);
        }
        var r := " " + rest;
        assert forall i :: 1 <= i < |r| ==> r[i] == rest[i - 1];
      } else {
        var rest := CollapseSpaces(s[1..]);
        CollapseSpacesSingle(s[1..]);
        var r := [s[0]] + rest;
        assert forall i :: 1 <= i < |r| ==> r[i] == rest[i - 1];
      }
    }
  }

  /** A comma followed by whitespace before the whitespace step is followed by a space after it. */
  lemma {:induction false} CollapseSpacesKeepsCommaSpacing(s: string)
    requires CommasBeforeSpace(s)
    ensures CommasSpaced(CollapseSpaces(s))
    decreases |s|
  {
    if s != [] {
      if IsSpace(s[0]) {
        var j := SkipSpaces(s, 0);
        CollapseSpacesKeepsCommaSpacing(s[j..]);
        var rest := CollapseSpaces(s[j..]);
        var r := " " + rest;
        assert forall i :: 1 <= i < |r| ==> r[i] == rest[i - 1];
      } else {
        CollapseSpacesKeepsCommaSpacing(s[1..]);
        var rest := CollapseSpaces(s[1..]);
        var r := [s[0]] + rest;
        assert forall i :: 1 <= i < |r| ==> r[i] == rest[i - 1];
        if s[0] == ',' {
          CollapseSpacesHead(s[1..]);
        }
      }
    }
  }

  /**
    The cleaned text has no leading or trailing whitespace, no whitespace but single plain
    spaces, no two commas in a row, and a space after every comma but a final one.
   */
  lemma CleanShape(s: string)
    ensures var r := Clean(s);
      (r == [] || (!IsSpace(r[0]) && !IsSpace(r[|r| - 1])))
      && SingleSpaced(r) && NoAdjacentCommas(r)
      && forall i :: 0 <= i < |r| - 1 && r[i] == ',' ==> r[i + 1] == ' '
  {
    var c := CollapseCommas(s);
    CollapseCommasSpaced(s);
    var x := CollapseSpaces(c);
    CollapseSpacesSingle(c);
    CollapseSpacesKeepsCommaSpacing(c);
    SliceShape(x, StripStart(x), StripEnd(x));
  }

  /** Cutting a piece out of single-spaced, comma-spaced text keeps it single-spaced, keeps commas apart, and keeps a space after every comma but a final one. */
  lemma SliceShape(x: string, a: nat, b: nat)
    requires a <= b <= |x| && SingleSpaced(x) && CommasSpaced(x)
    ensures var r := x[a..b];
      SingleSpaced(r) && NoAdjacentCommas(r)
      && forall i :: 0 <= i < |r| - 1 && r[i] == ',' ==> r[i + 1] == ' '
  {
    var r := x[a..b];
    assert forall i :: 0 <= i < |r| ==> r[i] == x[a + i];
  }

  /** The text without its whitespace and commas: what the clean-up must not change. */
  function Content(s: string): (r: string)
    ensures |r| <= |s|
  {
    if s == [] then []
    else (if IsSpace(s[0]) || s[0] == ',' then [] else [s[0]]) + Content(s[1..])
  }

  /** `Content` distributes over concatenation. */
  lemma {:induction false} ContentConcat(a: string, b: string)
    ensures Content(a + b) == Content(a) + Content(b)
    decreases |a|
  {
    if a != [] {
      assert (a + b)[1..] == a[1..] + b;
      ContentConcat(a[1..], b);
    } else {
      assert a + b == b;
    }
  }

  /** A prefix of whitespace and commas carries no content. */
  lemma {:induction false} ContentSkip(s: string, j: nat)
    requires j <= |s|
    requires forall k :: 0 <= k < j ==> IsSpace(s[k]) || s[k] == ','
    ensures Content(s) == Content(s[j..])
    decreases j
  {
    if j > 0 {
      assert s[1..][j - 1..] == s[j..];
      ContentSkip(s[1..], j - 1);
    }
  }

  /** The comma step keeps the content. */
  lemma {:induction false} ContentCollapseCommas(s: string)
    ensures Content(CollapseCommas(s)) == Content(s)
    decreases |s|
  {
    if s != [] {
      if s[0] == ',' {
        var j := CommaRunEnd(s, 0);
        ContentCollapseCommas(s[j..]);
        ContentConcat(", ", CollapseCommas(s[j..]));
        ContentSkip(s, j);
      } else {
        ContentCollapseCommas(s[1..]);
        ContentConcat([s[0]], CollapseCommas(s[1..]));
      }
    }
  }

  /** The whitespace step keeps the content. */
  lemma {:induction false} ContentCollapseSpaces(s: string)
    ensures Content(CollapseSpaces(s)) == Content(s)
    decreases |s|
  {
    if s != [] {
      if IsSpace(s[0]) {
        var j := SkipSpaces(s, 0);
        ContentCollapseSpaces(s[j..]);
        ContentConcat(" ", CollapseSpaces(s[j..]));
        ContentSkip(s, j);
      } else {
        ContentCollapseSpaces(s[1..]);
        ContentConcat([s[0]], CollapseSpaces(s[1..]));
      }
    }
  }

  /** A string of whitespace and commas has no content. */
  lemma ContentBlank(s: string)
    requires forall k :: 0 <= k < |s| ==> IsSpace(s[k]) || s[k] == ','
    ensures Content(s) == []
  {
    ContentSkip(s, |s|);
    assert s[|s|..] == [];
  }

  /** `strip` keeps the content. */
  lemma ContentStrip(s: string)
    ensures Content(Strip(s)) == Content(s)
  {
    var a, b := StripStart(s), StripEnd(s);
    var mid, tail := s[a..b], s[b..];
    ContentSkip(s, a);
    assert s[a..] == mid + tail;
    ContentConcat(mid, tail);
    ContentBlank(tail);
  }

  /** The clean-up changes only whitespace and commas: every other character stays, in order. */
  lemma ContentClean(s: string)
    ensures Content(Clean(s)) == Content(s)
  {
    ContentCollapseCommas(s);
    ContentCollapseSpaces(CollapseCommas(s));
    ContentStrip(CollapseSpaces(CollapseCommas(s)));
  }

  // ---------------------------------------------------------- personal info

  /** A string that is neither empty nor the sentinel: the guard on the email and the phone. */
  predicate Found(v: Option<string>) {
    Truthy(v) && v.value != NotFound
  }

  /**
    The personal-info tokens: the lower-cased name split on whitespace when the name is
    non-empty, the lower-cased email split at '@' and the lower-cased phone split on whitespace
    when each is neither empty nor the sentinel.
   */
  function PersonalInfo(name: Option<string>, email: Option<string>, phone: Option<string>): (info: set<string>)
    ensures forall w :: w in info <==>
      (Truthy(name) && w in Words(Lower(name.value)))
      || (Found(email) && w in Split(Lower(email.value), '@'))
      || (Found(phone) && w in Words(Lower(phone.value)))
  {
    (if Truthy(name) then ToSet(Words(Lower(name.value))) else {})
    + (if Found(email) then ToSet(Split(Lower(email.value), '@')) else {})
    + (if Found(phone) then ToSet(Words(Lower(phone.value))) else {})
  }

  /** The filter: the matched skills whose lower-case form is not a personal-info token. */
  function FilterSkills(found: set<string>, info: set<string>): (kept: set<string>)
    ensures kept <= found
    ensures forall s :: s in found ==> (s in kept <==> Lower(s) !in info)
  {
    set s | s in found && Lower(s) !in info
  }

  /** The pieces of `s.split(c)` hold only characters of `s`. */
  lemma {:induction false} SplitPiecesFrom(s: string, c: char)
    ensures forall k, i :: 0 <= k < |Split(s, c)| && 0 <= i < |Split(s, c)[k]| ==> Split(s, c)[k][i] in s
    decreases |s|
  {
    if s != [] {
      SplitPiecesFrom(s[1..], c);
      var rest := Split(s[1..], c);
      forall k, i | 0 <= k < |Split(s, c)| && 0 <= i < |Split(s, c)[k]|
        ensures Split(s, c)[k][i] in s
      {
        if s[0] == c {
          assert Split(s, c)[k] == ([[]] + rest)[k];
          if k > 0 {
            assert Split(s, c)[k] == rest[k - 1];
            assert rest[k - 1][i] in s[1..];
          }
        } else if k == 0 {
          assert Split(s, c)[0] == [s[0]] + rest[0];
          if i > 0 {
            assert rest[0][i - 1] in s[1..];
          }
        } else {
          assert Split(s, c)[k] == rest[k];
          assert rest[k][i] in s[1..];
        }
      }
    }
  }

  /**
    A skill of several words survives the filter whenever a found email holds no whitespace (as
    an address matched by the extractor's email pattern never does; the sentinel "Not found" is
    never split): name and phone tokens are single words, and the email's pieces have no
    whitespace either.
   */
  lemma MultiWordSkillsSurvive(found: set<string>, name: Option<string>, email: Option<string>, phone: Option<string>, s: string)
    requires s in found
    requires exists i :: 0 <= i < |s| && IsSpace(s[i])
    requires Found(email) ==> forall i :: 0 <= i < |email.value| ==> !IsSpace(email.value[i])
    ensures s in FilterSkills(found, PersonalInfo(name, email, phone))
  {
    var i :| 0 <= i < |s| && IsSpace(s[i]);
    var l := Lower(s);
    assert IsSpace(l[i]);
    assert !IsWord(l);
    if Found(email) {
      SplitPiecesFrom(Lower(email.value), '@');
    }
  }

  /** The personal info of a candidate named "React Sharma" with no email or phone found. */
  lemma ReactSharmaInfo()
    ensures PersonalInfo(Some("React Sharma"), None, None) == {"react", "sharma"}
  {
    assert Lower("React Sharma") == "react" + [' '] + "sharma";
    TwoWords("react", "sharma");
  }

  lemma LowerSkillNames()
    ensures Lower("React") == "react" && Lower("Python") == "python"
  {
  }

  /** A candidate named "React Sharma" loses the skill React, a token of the name, and keeps Python. */
  lemma NameTokenDropsSkill()
    ensures FilterSkills({"React", "Python"}, PersonalInfo(Some("React Sharma"), None, None)) == {"Python"}
  {
    ReactSharmaInfo();
    LowerSkillNames();
  }

  /** The pieces of the email "reactdev@example.com". */
  lemma ReactDevPieces()
    ensures Split(Lower("reactdev@example.com"), '@') == ["reactdev", "example.com"]
  {
    assert Lower("reactdev@example.com") == "reactdev" + ['@'] + "example.com";
    SplitAround("reactdev", "example.com", '@');
  }

  /** The personal info of an email "reactdev@example.com" alone: its two '@' pieces. */
  lemma ReactDevInfo()
    ensures forall w :: w in PersonalInfo(None, Some("reactdev@example.com"), None) <==>
      w == "reactdev" || w == "example.com"
  {
    ReactDevPieces();
    assert Found(Some("reactdev@example.com"));
  }

  /**
    The filter compares whole tokens: the email "reactdev@example.com" splits into
    "reactdev" and "example.com", so React stays although "react" occurs inside the address.
   */
  lemma EmailSubstringKeepsSkill()
    ensures FilterSkills({"React"}, PersonalInfo(None, Some("reactdev@example.com"), None)) == {"React"}
  {
    ReactDevInfo();
    LowerSkillNames();
  }

  /** The sentinel contributes no token: an email or phone that was not found filters nothing. */
  lemma SentinelFiltersNothing(found: set<string>)
    ensures FilterSkills(found, PersonalInfo(None, Some(NotFound), Some(NotFound))) == found
  {
  }
}
