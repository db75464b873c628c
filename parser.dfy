/**
  The keyword section extractor `parse_resume`: contact fields from the raw lines, skills from a
  fixed gazetteer, and three independent passes over the sentences for education (with the
  degree window), experience (with the years of experience) and projects. The sentence
  segmentation of the NLP model is an input.
 */
module Parser {
  import opened Wrappers
  import opened Text
  import opened Years
  import opened Profile

  /**
    The skill gazetteer, in the order the extractor tries it, written as four rows of fourteen
    so that its distinctness can be checked row by row.
   */
  const SkillsList: seq<string> := SkillsRow1 + SkillsRow2 + SkillsRow3 + SkillsRow4

  const SkillsRow1: seq<string> := [
    "Python", "Machine Learning", "Data Analysis", "Project Management",
    "Cloud Computing", "SQL", "Java", "C++", "AWS", "TensorFlow", "Keras",
    "Docker", "HTML", "CSS"
  ]
  const SkillsRow2: seq<string> := [
    "JavaScript", "Django", "MySQL", "Kali Linux",
    "Metasploit", "SEO", "pandas", "scikit-learn", "Gensim", "NLTK", "BeautifulSoup",
    "React", "Node.js", "Angular"
  ]
  const SkillsRow3: seq<string> := [
    "Vue.js", "Git", "GitHub", "Agile", "Scrum",
    "DevOps", "CI/CD", "REST API", "GraphQL", "MongoDB", "PostgreSQL", "Flask",
    "FastAPI", "Spring Boot"
  ]
  const SkillsRow4: seq<string> := [
    "Kubernetes", "Linux", "Windows", "MacOS", "Android",
    "iOS", "Swift", "Kotlin", "R", "Tableau", "Power BI", "Excel", "Word", "PowerPoint"
  ]

  const EducationKeywords: seq<string> :=
    ["bachelor", "master", "phd", "b.tech", "m.tech", "b.e", "m.e", "bsc", "msc", "mba"]

  const ExperienceKeywords: seq<string> :=
    ["experience", "work", "job", "position", "role", "employment"]

  const ProjectKeywords: seq<string> :=
    ["project", "developed", "created", "built", "implemented"]

  /** At most this many project sentences are kept. */
  const ProjectLimit: nat := 5

  // ---------------------------------------------------------------------------------------
  // Contact fields

  /** `text.split('\n')`: never empty, so `lines[0]` always exists. */
  function Lines(text: string): (r: seq<string>)
    ensures |r| >= 1
  {
    Split(text, '\n')
  }

  /** The index of the first line containing '@', or `|lines|` when there is none. */
  function EmailLineIndex(lines: seq<string>): (k: nat)
    ensures k <= |lines|
    ensures forall j :: 0 <= j < k ==> '@' !in lines[j]
    ensures k < |lines| ==> '@' in lines[k]
  {
    if lines == [] then 0
    else if '@' in lines[0] then 0
    else 1 + EmailLineIndex(lines[1..])
  }

  /** `any(char.isdigit() for char in line)`. */
  predicate HasDigit(line: string) {
    exists i | 0 <= i < |line| :: IsDigit(line[i])
  }

  /** A line the extractor takes for a phone number: it has a digit and fewer than 20 characters. */
  predicate IsPhoneLine(line: string) {
    HasDigit(line) && |line| < 20
  }

  /** The index of the first phone line, or `|lines|` when there is none. */
  function PhoneLineIndex(lines: seq<string>): (k: nat)
    ensures k <= |lines|
    ensures forall j :: 0 <= j < k ==> !IsPhoneLine(lines[j])
    ensures k < |lines| ==> IsPhoneLine(lines[k])
  {
    if lines == [] then 0
    else if IsPhoneLine(lines[0]) then 0
    else 1 + PhoneLineIndex(lines[1..])
  }

  /** `next((line for line in lines if '@' in line), 'Not found')`. */
  function EmailOf(lines: seq<string>): (email: string)
    ensures email == NotFound || (email in lines && '@' in email)
  {
    var k := EmailLineIndex(lines);
    if k < |lines| then lines[k] else NotFound
  }

  /** `next((line for line in lines if <phone line>), 'Not found')`. */
  function PhoneOf(lines: seq<string>): (phone: string)
    ensures phone == NotFound || (phone in lines && IsPhoneLine(phone))
  {
    var k := PhoneLineIndex(lines);
    if k < |lines| then lines[k] else NotFound
  }

  /** The sentinel holds no '@' and no digit, so no line equal to it is taken for an email or a phone. */
  lemma SentinelIsNoContact()
    ensures '@' !in NotFound
    ensures !HasDigit(NotFound)
  {
    forall i | 0 <= i < |NotFound|
      ensures NotFound[i] != '@' && !IsDigit(NotFound[i])
    {
    }
  }

  /** The email field is the sentinel exactly when no line has an '@', and otherwise the first line that has one. */
  lemma EmailIsFirstAtLine(lines: seq<string>)
    ensures EmailOf(lines) == NotFound <==> forall j :: 0 <= j < |lines| ==> '@' !in lines[j]
    ensures EmailOf(lines) != NotFound ==>
      var k := EmailLineIndex(lines); k < |lines| && EmailOf(lines) == lines[k] && '@' in lines[k]
  {
    SentinelIsNoContact();
  }

  /** The phone field is the sentinel exactly when no line is a phone line, and otherwise the first one. */
  lemma PhoneIsFirstPhoneLine(lines: seq<string>)
    ensures PhoneOf(lines) == NotFound <==> forall j :: 0 <= j < |lines| ==> !IsPhoneLine(lines[j])
    ensures PhoneOf(lines) != NotFound ==>
      var k := PhoneLineIndex(lines); k < |lines| && PhoneOf(lines) == lines[k] && IsPhoneLine(lines[k])
  {
    SentinelIsNoContact();
  }

  // ---------------------------------------------------------------------------------------
  // Skills

  /** The gazetteer entries `g`, in order, whose lower-case form occurs in the lower-cased text `lt`. */
  function SkillsIn(g: seq<string>, lt: string): seq<string> {
    if g == [] then []
    else
      var init, last := g[..|g| - 1], g[|g| - 1];
      if Contains(lt, Lower(last)) then SkillsIn(init, lt) + [last] else SkillsIn(init, lt)
  }

  /** A skill is reported exactly when it is a gazetteer entry whose lower-case form occurs in the text. */
  lemma {:induction false} SkillsInMembers(g: seq<string>, lt: string)
    ensures forall x :: x in SkillsIn(g, lt) <==> x in g && Contains(lt, Lower(x))
  {
    if g != [] {
      SkillsInMembers(g[..|g| - 1], lt);
      assert g == g[..|g| - 1] + [g[|g| - 1]];
    }
  }

  /** Skills are reported in gazetteer order: the result for a concatenation is the concatenation of results. */
  lemma {:induction false} SkillsInAppend(a: seq<string>, b: seq<string>, lt: string)
    ensures SkillsIn(a + b, lt) == SkillsIn(a, lt) + SkillsIn(b, lt)
    decreases |b|
  {
    if b == [] {
      assert a + b == a;
    } else {
      assert (a + b)[..|a + b| - 1] == a + b[..|b| - 1];
      SkillsInAppend(a, b[..|b| - 1], lt);
    }
  }

  /** A gazetteer without duplicates yields skills without duplicates. */
  lemma {:induction false} SkillsInNoDuplicates(g: seq<string>, lt: string)
    requires NoDuplicates(g)
    ensures NoDuplicates(SkillsIn(g, lt))
  {
    if g != [] {
      var init, last := g[..|g| - 1], g[|g| - 1];
      SkillsInNoDuplicates(init, lt);
      SkillsInMembers(init, lt);
      assert last !in init;
    }
  }

  lemma SkillsRow1NoDuplicates()
    ensures NoDuplicates(SkillsRow1)
  {
  }

  lemma SkillsRow2NoDuplicates()
    ensures NoDuplicates(SkillsRow2)
  {
  }

  lemma SkillsRow3NoDuplicates()
    ensures NoDuplicates(SkillsRow3)
  {
  }

  lemma SkillsRow4NoDuplicates()
    ensures NoDuplicates(SkillsRow4)
  {
  }

  lemma SkillsRows12Front()
    ensures forall i :: 0 <= i < 7 ==> SkillsRow1[i] !in SkillsRow2
  {
  }

  lemma SkillsRows12Back()
    ensures forall i :: 7 <= i < 14 ==> SkillsRow1[i] !in SkillsRow2
  {
  }

  lemma SkillsRows12Disjoint()
    ensures forall x :: x in SkillsRow1 ==> x !in SkillsRow2
  {
    SkillsRows12Front();
    SkillsRows12Back();
  }

  lemma SkillsRows13Front()
    ensures forall i :: 0 <= i < 7 ==> SkillsRow1[i] !in SkillsRow3
  {
  }

  lemma SkillsRows13Back()
    ensures forall i :: 7 <= i < 14 ==> SkillsRow1[i] !in SkillsRow3
  {
  }

  lemma SkillsRows13Disjoint()
    ensures forall x :: x in SkillsRow1 ==> x !in SkillsRow3
  {
    SkillsRows13Front();
    SkillsRows13Back();
  }

  lemma SkillsRows14Front()
    ensures forall i :: 0 <= i < 7 ==> SkillsRow1[i] !in SkillsRow4
  {
  }

  lemma SkillsRows14Back()
    ensures forall i :: 7 <= i < 14 ==> SkillsRow1[i] !in SkillsRow4
  {
  }

  lemma SkillsRows14Disjoint()
    ensures forall x :: x in SkillsRow1 ==> x !in SkillsRow4
  {
    SkillsRows14Front();
    SkillsRows14Back();
  }

  lemma SkillsRows23Front()
    ensures forall i :: 0 <= i < 7 ==> SkillsRow2[i] !in SkillsRow3
  {
  }

  lemma SkillsRows23Back()
    ensures forall i :: 7 <= i < 14 ==> SkillsRow2[i] !in SkillsRow3
  {
  }

  lemma SkillsRows23Disjoint()
    ensures forall x :: x in SkillsRow2 ==> x !in SkillsRow3
  {
    SkillsRows23Front();
    SkillsRows23Back();
  }

  lemma SkillsRows24Front()
    ensures forall i :: 0 <= i < 7 ==> SkillsRow2[i] !in SkillsRow4
  {
  }

  lemma SkillsRows24Back()
    ensures forall i :: 7 <= i < 14 ==> SkillsRow2[i] !in SkillsRow4
  {
  }

  lemma SkillsRows24Disjoint()
    ensures forall x :: x in SkillsRow2 ==> x !in SkillsRow4
  {
    SkillsRows24Front();
    SkillsRows24Back();
  }

  lemma SkillsRows34Front()
    ensures forall i :: 0 <= i < 7 ==> SkillsRow3[i] !in SkillsRow4
  {
  }

  lemma SkillsRows34Back()
    ensures forall i :: 7 <= i < 14 ==> SkillsRow3[i] !in SkillsRow4
  {
  }

  lemma SkillsRows34Disjoint()
    ensures forall x :: x in SkillsRow3 ==> x !in SkillsRow4
  {
    SkillsRows34Front();
    SkillsRows34Back();
  }

  /** No skill appears twice in the gazetteer. */
  lemma SkillsListNoDuplicates()
    ensures NoDuplicates(SkillsList)
  {
    SkillsRow1NoDuplicates();
    SkillsRow2NoDuplicates();
    SkillsRow3NoDuplicates();
    SkillsRow4NoDuplicates();
    SkillsRows12Disjoint();
    SkillsRows13Disjoint();
    SkillsRows14Disjoint();
    SkillsRows23Disjoint();
    SkillsRows24Disjoint();
    SkillsRows34Disjoint();
    NoDuplicatesConcat(SkillsRow1, SkillsRow2);
    NoDuplicatesConcat(SkillsRow1 + SkillsRow2, SkillsRow3);
    NoDuplicatesConcat(SkillsRow1 + SkillsRow2 + SkillsRow3, SkillsRow4);
  }

  /** No entry of a gazetteer without an empty entry occurs in an empty text. */
  lemma {:induction false} NoSkillsInEmpty(g: seq<string>)
    requires [] !in g
    ensures SkillsIn(g, []) == []
  {
    if g != [] {
      var init, last := g[..|g| - 1], g[|g| - 1];
      assert last in g && |Lower(last)| > 0;
      assert !Contains([], Lower(last));
      assert forall x :: x in init ==> x in g;
      NoSkillsInEmpty(init);
    }
  }

  /** An empty text holds no skill: every gazetteer entry has at least one character. */
  lemma NoSkillsInEmptyText()
    ensures SkillsIn(SkillsList, Lower("")) == []
  {
    assert [] !in SkillsList;
    assert Lower("") == [];
    NoSkillsInEmpty(SkillsList);
  }

  /** The skills loop: each gazetteer entry, in order, is appended when its lower-case form occurs in the lower-cased text. */
  method ExtractSkills(text: string) returns (skills: seq<string>)
    ensures skills == SkillsIn(SkillsList, Lower(text))
  {
    skills := ScanGazetteer(SkillsList, Lower(text));
  }

  /** The loop over the gazetteer: each entry whose lower-case form occurs in `lt` is appended. */
  method ScanGazetteer(g: seq<string>, lt: string) returns (found: seq<string>)
    ensures found == SkillsIn(g, lt)
  {
    found := [];
    for i := 0 to |g|
      invariant found == SkillsIn(g[..i], lt)
    {
      assert g[..i + 1][..i] == g[..i];
      if Contains(lt, Lower(g[i])) {
        found := found + [g[i]];
      }
    }
    assert g[..|g|] == g;
  }

  // ---------------------------------------------------------------------------------------
  // Sentence classification

  /** `any(keyword in t for keyword in kws)`. */
  predicate HasKeyword(t: string, kws: seq<string>) {
    exists k | 0 <= k < |kws| :: Contains(t, kws[k])
  }

  /** The sentences, in order, whose lower-case form contains one of the keywords. */
  function Classified(sents: seq<string>, kws: seq<string>): seq<string> {
    if sents == [] then []
    else
      var init, last := sents[..|sents| - 1], sents[|sents| - 1];
      if HasKeyword(Lower(last), kws) then Classified(init, kws) + [last] else Classified(init, kws)
  }

  /** A sentence lands in a bucket exactly when its lower-case form contains one of the bucket's keywords. */
  lemma {:induction false} ClassifiedMembers(sents: seq<string>, kws: seq<string>)
    ensures forall x :: x in Classified(sents, kws) <==> x in sents && HasKeyword(Lower(x), kws)
  {
    if sents != [] {
      ClassifiedMembers(sents[..|sents| - 1], kws);
      assert sents == sents[..|sents| - 1] + [sents[|sents| - 1]];
    }
  }

  /** Buckets keep document order: classifying a concatenation concatenates the buckets. */
  lemma {:induction false} ClassifiedAppend(a: seq<string>, b: seq<string>, kws: seq<string>)
    ensures Classified(a + b, kws) == Classified(a, kws) + Classified(b, kws)
    decreases |b|
  {
    if b == [] {
      assert a + b == a;
    } else {
      assert (a + b)[..|a + b| - 1] == a + b[..|b| - 1];
      ClassifiedAppend(a, b[..|b| - 1], kws);
    }
  }

  // ---------------------------------------------------------------------------------------
  // Education and degree

  /** The first keyword, in list order, that the sentence contains. */
  function FirstKeyword(t: string, kws: seq<string>): (k: nat)
    requires HasKeyword(t, kws)
    ensures k < |kws| && Contains(t, kws[k])
    ensures forall j :: 0 <= j < k ==> !Contains(t, kws[j])
  {
    FirstKeywordFrom(t, kws, 0)
  }

  function FirstKeywordFrom(t: string, kws: seq<string>, i: nat): (k: nat)
    requires HasKeyword(t, kws)
    requires i <= |kws| && forall j :: 0 <= j < i ==> !Contains(t, kws[j])
    ensures i <= k < |kws| && Contains(t, kws[k])
    ensures forall j :: 0 <= j < k ==> !Contains(t, kws[j])
    decreases |kws| - i
  {
    if Contains(t, kws[i]) then i else FirstKeywordFrom(t, kws, i + 1)
  }

  /** The start of the degree window: ten characters before the keyword, clamped at 0. */
  function WindowStart(i: int): int {
    if i - 10 > 0 then i - 10 else 0
  }

  /** The end of the degree window: twenty characters after the keyword's start, clamped at the length. */
  function WindowEnd(len: nat, i: int): int {
    if i + 20 < len then i + 20 else len
  }

  /** `sent_text[max(0, i - 10):min(len(sent_text), i + 20)].strip()` where `i = sent_text.find(keyword)`. */
  function DegreeWindow(t: string, kw: string): (degree: string)
    requires Contains(t, kw)
    ensures |degree| <= 30 && |degree| <= |t|
  {
    var i := Find(t, kw);
    Strip(t[WindowStart(i)..WindowEnd(|t|, i)])
  }

  /** The degree: the window around the first keyword of the first education sentence, or the sentinel. */
  function DegreeOf(sents: seq<string>): string {
    if sents == [] then NotFound
    else
      var t := Lower(sents[0]);
      if HasKeyword(t, EducationKeywords) then
        DegreeWindow(t, EducationKeywords[FirstKeyword(t, EducationKeywords)])
      else DegreeOf(sents[1..])
  }

  lemma EducationKeywordShape(k: nat)
    requires k < |EducationKeywords|
    ensures IsWord(EducationKeywords[k]) && |EducationKeywords[k]| <= 20
  {
  }

  /** The raw window around the keyword's first occurrence holds the keyword and has at most 30 characters. */
  lemma RawWindowShape(t: string, kw: string)
    requires |kw| <= 20 && Contains(t, kw)
    ensures var i := Find(t, kw); var a, b := WindowStart(i), WindowEnd(|t|, i);
      0 <= a <= i && i + |kw| <= b <= |t| && b - a <= 30 && OccursAt(t[a..b], kw, i - a)
  {
    var i := Find(t, kw);
    var a, b := WindowStart(i), WindowEnd(|t|, i);
    var w := t[a..b];
    forall j | 0 <= j < |kw|
      ensures w[i - a + j] == kw[j]
    {
      assert t[i..i + |kw|][j] == kw[j];
    }
    assert w[i - a..i - a + |kw|] == kw;
  }

  /** A non-empty lower-case string is not the sentinel, whose first letter is upper-case. */
  lemma LowerCaseIsNotSentinel(r: string)
    requires r != [] && !IsUpper(r[0])
    ensures r != NotFound
  {
    assert NotFound[0] == 'N';
  }

  /** Stripping a lower-case window of at most 30 characters that holds the keyword keeps the keyword and cannot give the sentinel. */
  lemma StrippedWindowShape(w: string, kw: string, o: nat)
    requires IsLowerCase(w) && |w| <= 30
    requires IsWord(kw) && OccursAt(w, kw, o)
    ensures |Strip(w)| <= 30
    ensures Contains(Strip(w), kw)
    ensures Strip(w) != NotFound
  {
    StripKeepsWord(w, kw, o);
    StripIsSlice(w);
    var r := Strip(w);
    assert OccursAt(r, kw, o - StripStart(w));
    assert r[0] == w[StripStart(w)];
    LowerCaseIsNotSentinel(r);
  }

  /**
    The degree window is at most 30 characters long, contains the keyword and is lower-case,
    so it is never the sentinel "Not found".
   */
  lemma DegreeWindowShape(t: string, kw: string)
    requires IsLowerCase(t)
    requires IsWord(kw) && |kw| <= 20
    requires Contains(t, kw)
    ensures |DegreeWindow(t, kw)| <= 30
    ensures Contains(DegreeWindow(t, kw), kw)
    ensures DegreeWindow(t, kw) != NotFound
  {
    var i := Find(t, kw);
    var a, b := WindowStart(i), WindowEnd(|t|, i);
    RawWindowShape(t, kw);
    var w := t[a..b];
    assert IsLowerCase(w) by {
      forall j | 0 <= j < |w|
        ensures !IsUpper(w[j])
      {
        assert w[j] == t[a + j];
      }
    }
    StrippedWindowShape(w, kw, i - a);
  }

  /** Lower-casing yields a lower-case string. */
  lemma LowerIsLowerCase(s: string)
    ensures IsLowerCase(Lower(s))
  {
  }

  /** The degree is the sentinel exactly when no sentence is an education sentence. */
  lemma {:induction false} DegreeSentinelIffNoEducation(sents: seq<string>)
    ensures DegreeOf(sents) == NotFound <==> Classified(sents, EducationKeywords) == []
  {
    ClassifiedMembers(sents, EducationKeywords);
    if sents != [] {
      var t := Lower(sents[0]);
      LowerIsLowerCase(sents[0]);
      if HasKeyword(t, EducationKeywords) {
        var k := FirstKeyword(t, EducationKeywords);
        EducationKeywordShape(k);
        DegreeWindowShape(t, EducationKeywords[k]);
        assert sents[0] in Classified(sents, EducationKeywords);
      } else {
        DegreeSentinelIffNoEducation(sents[1..]);
        assert sents == [sents[0]] + sents[1..];
        ClassifiedAppend([sents[0]], sents[1..], EducationKeywords);
        assert Classified([sents[0]], EducationKeywords) == [];
      }
    }
  }

  /** First match wins: once a prefix holds an education sentence, later sentences never change the degree. */
  lemma {:induction false} DegreeNeverOverwritten(a: seq<string>, b: seq<string>)
    requires Classified(a, EducationKeywords) != []
    ensures DegreeOf(a + b) == DegreeOf(a)
  {
    DegreeSentinelIffNoEducation(a);
    assert a != [];
    var t := Lower(a[0]);
    assert (a + b)[0] == a[0];
    if !HasKeyword(t, EducationKeywords) {
      assert (a + b)[1..] == a[1..] + b;
      DegreeSentinelIffNoEducation(a[1..]);
      assert DegreeOf(a) == DegreeOf(a[1..]);
      DegreeNeverOverwritten(a[1..], b);
    }
  }

  /** A prefix without education sentences has no effect on the degree. */
  lemma {:induction false} DegreeSkipsNonEducation(a: seq<string>, b: seq<string>)
    requires Classified(a, EducationKeywords) == []
    ensures DegreeOf(a + b) == DegreeOf(b)
  {
    if a != [] {
      assert a == [a[0]] + a[1..];
      ClassifiedAppend([a[0]], a[1..], EducationKeywords);
      assert Classified([a[0]], EducationKeywords) + Classified(a[1..], EducationKeywords) == [];
      assert [a[0]][..0] == [];
      assert !HasKeyword(Lower(a[0]), EducationKeywords);
      assert Classified(a[1..], EducationKeywords) == [];
      assert (a + b)[0] == a[0];
      assert (a + b)[1..] == a[1..] + b;
      assert DegreeOf(a + b) == DegreeOf(a[1..] + b);
      DegreeSkipsNonEducation(a[1..], b);
    } else {
      assert a + b == b;
    }
  }

  /** One more sentence: it joins the education bucket when it has a keyword, and sets the degree only when none is set yet. */
  lemma EducationStep(a: seq<string>, s: string)
    ensures Classified(a + [s], EducationKeywords)
      == Classified(a, EducationKeywords) + (if HasKeyword(Lower(s), EducationKeywords) then [s] else [])
    ensures DegreeOf(a + [s]) == if DegreeOf(a) == NotFound then DegreeOf([s]) else DegreeOf(a)
  {
    assert (a + [s])[..|a + [s]| - 1] == a;
    DegreeSentinelIffNoEducation(a);
    if DegreeOf(a) == NotFound {
      DegreeSkipsNonEducation(a, [s]);
    } else {
      DegreeNeverOverwritten(a, [s]);
    }
  }

  /** A keyword the sentence contains, with none before it in the list, is the first keyword. */
  lemma FirstKeywordIs(t: string, kws: seq<string>, k: nat)
    requires k < |kws| && Contains(t, kws[k])
    requires forall j :: 0 <= j < k ==> !Contains(t, kws[j])
    ensures HasKeyword(t, kws) && FirstKeyword(t, kws) == k
  {
  }

  /**
    The degree of a single education sentence: the keywords are tried in list order, and the
    first one the sentence contains gives the window.
   */
  method SentenceDegree(t: string, kws: seq<string>) returns (degree: string)
    requires HasKeyword(t, kws)
    ensures degree == DegreeWindow(t, kws[FirstKeyword(t, kws)])
  {
    degree := NotFound;
    var k := 0;
    while k < |kws|
      invariant 0 <= k <= |kws|
      invariant forall j :: 0 <= j < k ==> !Contains(t, kws[j])
    {
      if Contains(t, kws[k]) {
        FirstKeywordIs(t, kws, k);
        var found := Find(t, kws[k]);
        var startIdx := WindowStart(found);
        var endIdx := WindowEnd(|t|, found);
        degree := Strip(t[startIdx..endIdx]);
        break;
      }
      k := k + 1;
    }
  }

  /**
    The education pass: every education sentence is appended, and the first one sets the
    degree from its first keyword.
   */
  method ExtractEducation(sents: seq<string>) returns (education: seq<string>, degree: string)
    ensures education == Classified(sents, EducationKeywords)
    ensures degree == DegreeOf(sents)
  {
    education := [];
    degree := NotFound;
    for i := 0 to |sents|
      invariant education == Classified(sents[..i], EducationKeywords)
      invariant degree == DegreeOf(sents[..i])
    {
      EducationStep(sents[..i], sents[i]);
      assert sents[..i + 1] == sents[..i] + [sents[i]];
      var t := Lower(sents[i]);
      if HasKeyword(t, EducationKeywords) {
        education := education + [sents[i]];
        if degree == NotFound {
          degree := SentenceDegree(t, EducationKeywords);
        }
      }
    }
    assert sents[..|sents|] == sents;
  }

  // ---------------------------------------------------------------------------------------
  // Experience

  /** The years of experience: the largest year mention over the experience sentences, 0 when none. */
  function TotalExperience(sents: seq<string>): nat {
    if sents == [] then 0
    else
      var t := Lower(sents[|sents| - 1]);
      Max(TotalExperience(sents[..|sents| - 1]),
          if HasKeyword(t, ExperienceKeywords) then SentenceYears(t) else 0)
  }

  /** Years of experience combine by maximum, not by sum: the total over two parts is the larger of the two. */
  lemma {:induction false} TotalExperienceAppend(a: seq<string>, b: seq<string>)
    ensures TotalExperience(a + b) == Max(TotalExperience(a), TotalExperience(b))
    decreases |b|
  {
    if b == [] {
      assert a + b == a;
    } else {
      assert (a + b)[..|a + b| - 1] == a + b[..|b| - 1];
      TotalExperienceAppend(a, b[..|b| - 1]);
    }
  }

  /** The mention of a number of years in an experience sentence (a maximal digit run followed by " year" or "+ year"). */
  ghost predicate ExperienceMention(sents: seq<string>, k: int, p: int) {
    0 <= k < |sents| && HasKeyword(Lower(sents[k]), ExperienceKeywords) && YearMention(Lower(sents[k]), p)
  }

  /**
    The years of experience bound every year mention of every experience sentence, and are the
    value of one of those mentions, or 0 when there is none.
   */
  lemma {:induction false} TotalExperienceIsLargestMention(sents: seq<string>)
    ensures forall k, p :: ExperienceMention(sents, k, p) ==>
      RunValue(Lower(sents[k]), p) <= TotalExperience(sents)
    ensures TotalExperience(sents) == 0 ||
      exists k, p :: ExperienceMention(sents, k, p) && RunValue(Lower(sents[k]), p) == TotalExperience(sents)
  {
    if sents != [] {
      var n := |sents| - 1;
      var init, t := sents[..n], Lower(sents[n]);
      TotalExperienceIsLargestMention(init);
      SentenceYearsIsLargestMention(t);
      forall k, p | ExperienceMention(sents, k, p)
        ensures RunValue(Lower(sents[k]), p) <= TotalExperience(sents)
      {
        if k < n {
          assert ExperienceMention(init, k, p);
        }
      }
      if TotalExperience(sents) != 0 {
        if TotalExperience(sents) == TotalExperience(init) {
          var k, p :| ExperienceMention(init, k, p) && RunValue(Lower(init[k]), p) == TotalExperience(init);
          assert ExperienceMention(sents, k, p);
        } else {
          var p :| YearMention(t, p) && RunValue(t, p) == SentenceYears(t);
          assert ExperienceMention(sents, n, p);
        }
      }
    }
  }

  /** One more sentence: it joins the experience bucket when it has a keyword, and its years then count towards the maximum. */
  lemma ExperienceStep(a: seq<string>, s: string)
    ensures Classified(a + [s], ExperienceKeywords)
      == Classified(a, ExperienceKeywords) + (if HasKeyword(Lower(s), ExperienceKeywords) then [s] else [])
    ensures TotalExperience(a + [s])
      == if HasKeyword(Lower(s), ExperienceKeywords) then Max(TotalExperience(a), SentenceYears(Lower(s)))
         else TotalExperience(a)
  {
    assert (a + [s])[..|a + [s]| - 1] == a;
  }

  /**
    The year patterns of one experience sentence: for each of the four patterns in turn, every
    match raises the running maximum `before`.
   */
  method RaiseByYears(t: string, before: nat) returns (total: nat)
    ensures total == Max(before, SentenceYears(t))
  {
    total := before;
    for pi := 0 to |YearSuffixes|
      invariant total == Max(before, SeqMax(PatternMatches(t, pi)))
    {
      var matches := FindAll(t, YearSuffixes[pi], 0);
      assert PatternMatches(t, pi) + matches[..0] == PatternMatches(t, pi);
      for mi := 0 to |matches|
        invariant total == Max(before, SeqMax(PatternMatches(t, pi) + matches[..mi]))
      {
        SeqMaxExtend(PatternMatches(t, pi), matches, mi);
        total := Max(total, matches[mi]);
      }
      assert matches[..|matches|] == matches;
    }
  }

  /**
    The experience pass: every experience sentence is appended, and its year mentions raise
    the running maximum.
   */
  method ExtractExperience(sents: seq<string>) returns (experience: seq<string>, total: nat)
    ensures experience == Classified(sents, ExperienceKeywords)
    ensures total == TotalExperience(sents)
  {
    experience := [];
    total := 0;
    for i := 0 to |sents|
      invariant experience == Classified(sents[..i], ExperienceKeywords)
      invariant total == TotalExperience(sents[..i])
    {
      ExperienceStep(sents[..i], sents[i]);
      assert sents[..i + 1] == sents[..i] + [sents[i]];
      var t := Lower(sents[i]);
      if HasKeyword(t, ExperienceKeywords) {
        experience := experience + [sents[i]];
        total := RaiseByYears(t, total);
      }
    }
    assert sents[..|sents|] == sents;
  }

  // ---------------------------------------------------------------------------------------
  // Projects

  /** The project pass: project sentences in order, of which the first five are kept. */
  method ExtractProjects(sents: seq<string>) returns (projects: seq<string>)
    ensures |projects| == if |Classified(sents, ProjectKeywords)| < ProjectLimit
      then |Classified(sents, ProjectKeywords)| else ProjectLimit
    ensures projects == Classified(sents, ProjectKeywords)[..|projects|]
  {
    var projectSentences := [];
    for i := 0 to |sents|
      invariant projectSentences == Classified(sents[..i], ProjectKeywords)
    {
      assert sents[..i + 1][..i] == sents[..i];
      if HasKeyword(Lower(sents[i]), ProjectKeywords) {
        projectSentences := projectSentences + [sents[i]];
      }
    }
    assert sents[..|sents|] == sents;
    projects := if |projectSentences| <= ProjectLimit then projectSentences
                else projectSentences[..ProjectLimit];
  }

  // ---------------------------------------------------------------------------------------
  // The whole extractor

  /** `project_sentences[:5]`. */
  function FirstProjects(xs: seq<string>): seq<string> {
    if |xs| <= ProjectLimit then xs else xs[..ProjectLimit]
  }

  /** The profile `parse_resume` returns for a text and its sentences. */
  function ParsedProfile(text: string, sents: seq<string>): ResumeData {
    var lines := Lines(text);
    ResumeData(
      name := Some(lines[0]),
      email := Some(EmailOf(lines)),
      phone := Some(PhoneOf(lines)),
      mobileNumber := None,
      skills := Some(SkillsIn(SkillsList, Lower(text))),
      education := Some(Classified(sents, EducationKeywords)),
      experience := Some(Classified(sents, ExperienceKeywords)),
      totalExperience := Some(TotalExperience(sents)),
      degree := Some(DegreeOf(sents)),
      collegeName := Some(NotFound),
      projects := Some(FirstProjects(Classified(sents, ProjectKeywords))),
      certifications := Some([]),
      achievements := Some([]),
      summary := Some([])
    )
  }

  /** `parse_resume` on already extracted text and its sentence segmentation. */
  method ParseResume(text: string, sents: seq<string>) returns (d: ResumeData)
    ensures d == ParsedProfile(text, sents)
  {
    var lines := Split(text, '\n');
    var name := if |lines| > 0 then lines[0] else NotFound;
    var skills := ExtractSkills(text);
    var education, degree := ExtractEducation(sents);
    var experience, total := ExtractExperience(sents);
    var projects := ExtractProjects(sents);
    assert projects == FirstProjects(Classified(sents, ProjectKeywords));
    d := ResumeData(
      name := Some(name),
      email := Some(EmailOf(lines)),
      phone := Some(PhoneOf(lines)),
      mobileNumber := None,
      skills := Some(skills),
      education := Some(education),
      experience := Some(experience),
      totalExperience := Some(total),
      degree := Some(degree),
      collegeName := Some(NotFound),
      projects := Some(projects),
      certifications := Some([]),
      achievements := Some([]),
      summary := Some([])
    );
  }
}
