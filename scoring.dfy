/**
  The résumé score: the ten-category breakdown that `get_resume_score_breakdown` fills in from
  a profile, and `calculate_resume_score`, the sum of its values.
 */
module Scoring {
  import opened Wrappers
  import opened Profile

  /** The breakdown dictionary; its fields follow the dictionary's insertion order. */
  datatype Breakdown = Breakdown(
    /** "Contact Information" */
    contact: int,
    /** "Education" */
    education: int,
    /** "Skills" */
    skills: int,
    /** "Experience" */
    experience: int,
    /** "Projects" */
    projects: int,
    /** "Certifications" */
    certifications: int,
    /** "Summary/Objective" */
    summary: int,
    /** "Achievements" */
    achievements: int,
    /** "Formatting" */
    formatting: int,
    /** "Keywords" */
    keywords: int
  ) {
    /** `score_breakdown.values()`, in insertion order. */
    function Values(): (vs: seq<int>)
      ensures |vs| == 10
      ensures vs[0] == contact && vs[1] == education && vs[9] == keywords
    {
      [contact, education, skills, experience, projects, certifications, summary, achievements, formatting, keywords]
    }

    /** Every category lies between 0 and 10 points. */
    predicate InRange() {
      forall k :: 0 <= k < |Values()| ==> 0 <= Values()[k] <= 10
    }
  }

  /** The points a flag earns: `n` when set, none otherwise. */
  function Award(flag: bool, n: nat): (r: nat)
    ensures r <= n
    ensures r == 0 || r == n
    ensures n > 0 ==> (flag <==> r == n)
  {
    if flag then n else 0
  }

  /** Python's `min(x, 10)`: the cap every counted category shares. */
  function Cap(x: int): (r: int)
    ensures r <= 10
    ensures r == x || (r == 10 && x > 10)
  {
    if x < 10 then x else 10
  }

  /** The years of experience the scorer reads: `d.get('total_experience', 0)`. */
  function YearsOf(d: ResumeData): int {
    d.totalExperience.GetOr(0)
  }

  /** A profile whose experience figure, if any, is not negative, as every parsed profile's is. */
  predicate SaneYears(d: ResumeData) {
    YearsOf(d) >= 0
  }

  /**
    The rubric, category by category: contact 3 + 3 + 4 for a truthy name, email and
    mobile number; education 5 + 5 for a truthy degree and college; skills one point each and
    experience two points a year, capped at 10; projects, certifications and achievements two
    points each, capped at 10; 10 for a truthy summary; a flat 8 for formatting and 7 for keywords.
   */
  function Rubric(d: ResumeData): (b: Breakdown)
    ensures b.formatting == 8 && b.keywords == 7
    ensures SaneYears(d) ==> b.InRange()
    ensures b.contact <= 10 && b.education <= 10
  {
    Breakdown(
      contact := Award(Truthy(d.name), 3) + Award(Truthy(d.email), 3) + Award(Truthy(d.mobileNumber), 4),
      education := Award(Truthy(d.degree), 5) + Award(Truthy(d.collegeName), 5),
      skills := Cap(CountOf(d.skills)),
      experience := Cap(YearsOf(d) * 2),
      projects := Cap(CountOf(d.projects) * 2),
      certifications := Cap(CountOf(d.certifications) * 2),
      summary := Award(Truthy(d.summary), 10),
      achievements := Cap(CountOf(d.achievements) * 2),
      formatting := 8,
      keywords := 7
    )
  }

  /**
    `get_resume_score_breakdown`: starts every category at 0, adds the contact and education
    points one key at a time, then sets the remaining categories.
   */
  method GetResumeScoreBreakdown(d: ResumeData) returns (b: Breakdown)
    ensures b == Rubric(d)
  {
    b := Breakdown(0, 0, 0, 0, 0, 0, 0, 0, 0, 0);
    if Truthy(d.name) { b := b.(contact := b.contact + 3); }
    if Truthy(d.email) { b := b.(contact := b.contact + 3); }
    if Truthy(d.mobileNumber) { b := b.(contact := b.contact + 4); }
    if Truthy(d.degree) { b := b.(education := b.education + 5); }
    if Truthy(d.collegeName) { b := b.(education := b.education + 5); }
    b := b.(skills := Cap(|d.skills.GetOr([])|));
    b := b.(experience := Cap(d.totalExperience.GetOr(0) * 2));
    b := b.(projects := Cap(|d.projects.GetOr([])| * 2));
    b := b.(certifications := Cap(|d.certifications.GetOr([])| * 2));
    if Truthy(d.summary) { b := b.(summary := 10); }
    b := b.(achievements := Cap(|d.achievements.GetOr([])| * 2));
    b := b.(formatting := 8);
    b := b.(keywords := 7);
  }

  /** Python's `sum` over a list of integers. */
  function Sum(xs: seq<int>): int {
    if xs == [] then 0 else xs[0] + Sum(xs[1..])
  }

  /** The total of a breakdown: the sum of its values. */
  function Total(b: Breakdown): int {
    Sum(b.Values())
  }

  /** The total is the sum of the ten categories. */
  lemma TotalIsCategorySum(b: Breakdown)
    ensures Total(b) == b.contact + b.education + b.skills + b.experience + b.projects
      + b.certifications + b.summary + b.achievements + b.formatting + b.keywords
  {
    var vs := b.Values();
    forall k | 0 <= k < 10
      ensures Sum(vs[k..]) == vs[k] + Sum(vs[k + 1..])
    {
      assert vs[k..][1..] == vs[k + 1..];
    }
    assert vs[10..] == [] && vs[0..] == vs;
    assert Sum(vs[7..]) == vs[7] + vs[8] + vs[9];
    assert Sum(vs[4..]) == vs[4] + vs[5] + vs[6] + Sum(vs[7..]);
    assert Sum(vs) == vs[0] + vs[1] + vs[2] + vs[3] + Sum(vs[4..]);
  }

  /** A breakdown whose categories are all within range totals between 0 and 100. */
  lemma TotalOfInRange(b: Breakdown)
    requires b.InRange()
    ensures 0 <= Total(b) <= 100
  {
    TotalIsCategorySum(b);
    var vs := b.Values();
    assert 0 <= vs[2] <= 10 && 0 <= vs[3] <= 10 && 0 <= vs[4] <= 10 && 0 <= vs[5] <= 10;
    assert 0 <= vs[6] <= 10 && 0 <= vs[7] <= 10 && 0 <= vs[8] <= 10;
  }

  /** `calculate_resume_score`: the breakdown's values summed. */
  method CalculateResumeScore(d: ResumeData) returns (score: int)
    ensures score == Total(Rubric(d))
    ensures SaneYears(d) ==> 15 <= score <= 95
  {
    var b := GetResumeScoreBreakdown(d);
    score := Sum(b.Values());
    if SaneYears(d) {
      TotalBounds(d);
    }
  }

  /**
    With a non-negative experience figure the total lies between 15 (formatting and keywords
    alone) and 95: the eight earned categories give at most 80, and the two flat ones 15, so
    the nominal 100 is never reached.
   */
  lemma TotalBounds(d: ResumeData)
    requires SaneYears(d)
    ensures 15 <= Total(Rubric(d)) <= 95
  {
    var b := Rubric(d);
    TotalOfInRange(b);
    TotalIsCategorySum(b);
    assert 0 <= b.contact && 0 <= b.education && 0 <= b.skills && 0 <= b.experience;
    assert 0 <= b.projects && 0 <= b.certifications && 0 <= b.summary && 0 <= b.achievements;
  }

  /** Contact points are 3 for the name, 3 for the email and 4 for the mobile number, so each total names its keys. */
  lemma ContactPoints(d: ResumeData)
    ensures Rubric(d).contact in {0, 3, 4, 6, 7, 10}
    ensures Rubric(d).contact >= 4 <==> Truthy(d.mobileNumber) || (Truthy(d.name) && Truthy(d.email))
    ensures Rubric(d).contact == 10 <==> Truthy(d.name) && Truthy(d.email) && Truthy(d.mobileNumber)
    ensures Rubric(d).contact == 0 <==> !Truthy(d.name) && !Truthy(d.email) && !Truthy(d.mobileNumber)
  {
  }

  /**
    The scorer reads 'mobile_number' and never 'phone': a profile without 'mobile_number' gets at
    most 6 contact points, and whatever its 'phone' holds changes nothing.
   */
  lemma NoMobileNumberNoPhonePoints(d: ResumeData, phone: Option<string>)
    requires d.mobileNumber.None?
    ensures Rubric(d).contact <= 6
    ensures Rubric(d.(phone := phone)) == Rubric(d)
  {
  }

  /** The sentinel 'Not found' is a non-empty string, so a degree or college that was not found still earns its 5 points. */
  lemma SentinelEarnsPoints(d: ResumeData)
    requires d.degree == Some(NotFound) && d.collegeName == Some(NotFound)
    ensures Rubric(d).education == 10
  {
  }

  /** What it takes to reach the highest total. */
  predicate PerfectProfile(d: ResumeData) {
    Truthy(d.name) && Truthy(d.email) && Truthy(d.mobileNumber)
    && Truthy(d.degree) && Truthy(d.collegeName)
    && CountOf(d.skills) >= 10 && YearsOf(d) >= 5
    && CountOf(d.projects) >= 5 && CountOf(d.certifications) >= 5
    && Truthy(d.summary) && CountOf(d.achievements) >= 5
  }

  /** The total reaches its highest value, 95, exactly when every earned category is at its cap. */
  lemma PerfectScore(d: ResumeData)
    requires SaneYears(d)
    ensures Total(Rubric(d)) == 95 <==> PerfectProfile(d)
  {
    var b := Rubric(d);
    TotalIsCategorySum(b);
    ContactPoints(d);
    var vs := b.Values();
    assert vs[2] == b.skills && vs[3] == b.experience && vs[4] == b.projects && vs[5] == b.certifications;
    assert vs[6] == b.summary && vs[7] == b.achievements;
    assert b.skills <= 10 && b.experience <= 10 && b.projects <= 10 && b.certifications <= 10;
    assert b.summary <= 10 && b.achievements <= 10;
    if Total(b) == 95 {
      assert b.contact == 10 && b.education == 10 && b.skills == 10 && b.experience == 10;
      assert b.projects == 10 && b.certifications == 10 && b.summary == 10 && b.achievements == 10;
      assert Truthy(d.name) && Truthy(d.email) && Truthy(d.mobileNumber);
      assert Truthy(d.degree) && Truthy(d.collegeName);
      assert CountOf(d.skills) >= 10 && YearsOf(d) >= 5;
      assert CountOf(d.projects) >= 5 && CountOf(d.certifications) >= 5;
      assert Truthy(d.summary) && CountOf(d.achievements) >= 5;
    }
    if PerfectProfile(d) {
      assert b.contact == 10 && b.education == 10 && b.skills == 10 && b.experience == 10;
      assert b.projects == 10 && b.certifications == 10 && b.summary == 10 && b.achievements == 10;
    }
  }

  /** The total is 15 exactly when nothing but the flat formatting and keyword points is earned. */
  lemma EmptiestScore(d: ResumeData)
    requires SaneYears(d)
    ensures Total(Rubric(d)) == 15 <==>
      !Truthy(d.name) && !Truthy(d.email) && !Truthy(d.mobileNumber)
      && !Truthy(d.degree) && !Truthy(d.collegeName) && !Truthy(d.summary)
      && CountOf(d.skills) == 0 && YearsOf(d) == 0 && CountOf(d.projects) == 0
      && CountOf(d.certifications) == 0 && CountOf(d.achievements) == 0
  {
    var b := Rubric(d);
    TotalIsCategorySum(b);
    TotalOfInRange(b);
    var vs := b.Values();
    assert 0 <= vs[2] && 0 <= vs[3] && 0 <= vs[4] && 0 <= vs[5];
    assert 0 <= vs[6] && 0 <= vs[7] && 0 <= vs[8];
  }
}
