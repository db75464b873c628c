/**
  The recommendation engine: the career field whose skill list overlaps the résumé's skills
  the most, a sample of skills the résumé lacks, and the course list for a field.
 */
module Recommend {
  import opened Text

  /** One entry of the field table: its name and the skills that signal it. */
  datatype Field = Field(name: string, skills: seq<string>)

  const DataScience := Field("Data Science", ["Python", "Machine Learning", "Data Analysis", "SQL", "Statistics", "TensorFlow", "PyTorch"])
  const WebDevelopment := Field("Web Development", ["JavaScript", "HTML", "CSS", "React", "Node.js", "Angular", "Vue.js"])
  const AndroidDevelopment := Field("Android Development", ["Java", "Kotlin", "Android SDK", "Mobile Development"])
  const IosDevelopment := Field("iOS Development", ["Swift", "Objective-C", "iOS SDK", "Mobile Development"])
  const UiUxDesign := Field("UI/UX Design", ["Figma", "Adobe XD", "Sketch", "User Research", "Wireframing"])
  const DevOps := Field("DevOps", ["Docker", "Kubernetes", "AWS", "Azure", "CI/CD", "Jenkins", "Git"])
  const Cybersecurity := Field("Cybersecurity", ["Network Security", "Penetration Testing", "Kali Linux", "Cryptography"])

  /** The field table, in the dictionary's insertion order. */
  const Fields: seq<Field> := [DataScience, WebDevelopment, AndroidDevelopment, IosDevelopment, UiUxDesign, DevOps, Cybersecurity]

  /** The field recommended when no field's skills overlap the résumé's. */
  const GeneralField: string := "General Software Development"

  /** The names of the fields, in table order. */
  function FieldNames(): (names: seq<string>)
    ensures |names| == |Fields|
    ensures forall k :: 0 <= k < |Fields| ==> names[k] == Fields[k].name
  {
    seq(|Fields|, k requires 0 <= k < |Fields| => Fields[k].name)
  }

  /** The field names are distinct, and the fallback is not one of them. */
  lemma FieldNamesDistinct()
    ensures NoDuplicates(FieldNames())
    ensures GeneralField !in FieldNames()
  {
  }

  /** `len(set(skills) & set(field_skills))` for the field at index `k`. */
  function Match(skills: seq<string>, k: nat): nat
    requires k < |Fields|
  {
    |ToSet(skills) * ToSet(Fields[k].skills)|
  }

  /** Field `k` has a positive match no other field beats, and every earlier field matches strictly less. */
  predicate IsFirstBest(skills: seq<string>, k: int) {
    0 <= k < |Fields| && Match(skills, k) > 0
    && (forall j :: 0 <= j < |Fields| ==> Match(skills, j) <= Match(skills, k))
    && (forall j :: 0 <= j < k ==> Match(skills, j) < Match(skills, k))
  }

  /** At most one field is the first best. */
  lemma FirstBestUnique(skills: seq<string>, k1: int, k2: int)
    ensures IsFirstBest(skills, k1) && IsFirstBest(skills, k2) ==> k1 == k2
  {
  }

  /**
    `recommend_field`: scans the table keeping the best match so far, replacing it only on a
    strictly larger match, so the first of several equal best fields wins; with no match at
    all the fallback stays.
   */
  method RecommendField(skills: seq<string>) returns (field: string)
    ensures field == GeneralField <==> forall j :: 0 <= j < |Fields| ==> Match(skills, j) == 0
    ensures field != GeneralField ==> exists k :: IsFirstBest(skills, k) && field == Fields[k].name
  {
    FieldNamesDistinct();
    var maxMatch := 0;
    field := GeneralField;
    ghost var best := -1;
    for i := 0 to |Fields|
      invariant -1 <= best < i
      invariant best == -1 ==> field == GeneralField && maxMatch == 0
      invariant best >= 0 ==> field == Fields[best].name && maxMatch == Match(skills, best) > 0
      invariant forall j :: 0 <= j < i ==> Match(skills, j) <= maxMatch
      invariant best >= 0 ==> forall j :: 0 <= j < best ==> Match(skills, j) < maxMatch
    {
      var m := |ToSet(skills) * ToSet(Fields[i].skills)|;
      if m > maxMatch {
        maxMatch := m;
        field := Fields[i].name;
        best := i;
      }
    }
    if best >= 0 {
      assert FieldNames()[best] == field;
      assert IsFirstBest(skills, best);
    }
  }

  /** Two lists with no common element have an empty intersection as sets. */
  lemma NoCommonSkill(a: seq<string>, b: seq<string>)
    requires forall k :: 0 <= k < |a| ==> a[k] !in b
    ensures ToSet(a) * ToSet(b) == {}
  {
  }

  /** The skills `recommend_skills` draws from. */
  const AllSkills: set<string> := {
    "Python", "Java", "C++", "JavaScript", "HTML", "CSS", "SQL",
    "Machine Learning", "Data Analysis", "React", "Node.js", "Angular",
    "Vue.js", "Docker", "Kubernetes", "AWS", "Azure", "GCP", "Git", "Agile",
    "TensorFlow", "PyTorch", "NLP", "Computer Vision", "Data Visualization",
    "Flask", "Django", "RESTful API", "GraphQL", "MongoDB", "PostgreSQL"
  }

  /** How many skills are recommended: `min(5, len(recommended))`. */
  function SampleSize(gap: set<string>): (n: nat)
    ensures n <= 5 && n <= |gap|
    ensures n == 5 || n == |gap|
  {
    if |gap| < 5 then |gap| else 5
  }

  /** The skills from the pool the résumé does not already list. */
  function Gap(skills: seq<string>): (gap: set<string>)
    ensures forall s :: s in gap <==> s in AllSkills && s !in skills
  {
    AllSkills - ToSet(skills)
  }

  /** `picks` could be what `random.sample(gap, n)` returns: `n` distinct elements of `gap`. */
  predicate IsSample(picks: seq<string>, gap: set<string>, n: nat) {
    |picks| == n && NoDuplicates(picks) && forall k :: 0 <= k < |picks| ==> picks[k] in gap
  }

  /** A set has a sample of every size up to its cardinality. */
  lemma {:induction false} SampleExists(gap: set<string>, n: nat)
    requires n <= |gap|
    ensures exists picks :: IsSample(picks, gap, n)
    decreases n
  {
    if n == 0 {
      assert IsSample([], gap, 0);
    } else {
      var x :| x in gap;
      SampleExists(gap - {x}, n - 1);
      var rest :| IsSample(rest, gap - {x}, n - 1);
      assert IsSample([x] + rest, gap, n);
    }
  }

  /**
    `recommend_skills`: a sample, without repetition, of `min(5, |gap|)` skills from the gap.
    Which sample `random.sample` draws is left open: any sample of that size may be returned.
   */
  method RecommendSkills(skills: seq<string>) returns (picks: seq<string>)
    ensures |picks| == SampleSize(Gap(skills))
    ensures NoDuplicates(picks)
    ensures forall k :: 0 <= k < |picks| ==> picks[k] in AllSkills && picks[k] !in skills
  {
    var gap := Gap(skills);
    SampleExists(gap, SampleSize(gap));
    picks :| IsSample(picks, gap, SampleSize(gap));
  }

  /** A subset has no more elements than its superset. */
  lemma SubsetCard(a: set<string>, b: set<string>)
    requires a <= b
    ensures |a| <= |b|
  {
    assert b == a + (b - a);
  }

  /** The pool holds at least five skills. */
  lemma AllSkillsAtLeastFive()
    ensures |AllSkills| >= 5
  {
    var five := {"Python", "Java", "C++", "JavaScript", "HTML"};
    assert |five| == 5;
    assert five <= AllSkills;
    SubsetCard(five, AllSkills);
  }

  /** A résumé listing none of the pool's skills gets a full sample of five. */
  lemma FullSampleForNewcomer(skills: seq<string>)
    requires forall k :: 0 <= k < |skills| ==> skills[k] !in AllSkills
    ensures SampleSize(Gap(skills)) == 5
  {
    AllSkillsAtLeastFive();
    assert Gap(skills) == AllSkills;
  }
}

/** `recommend_courses` and the course lists it chooses from. */
module CourseCatalog {
  import opened Recommend

  const DsCourse: seq<string> := [
    "Data Science Specialization - Coursera",
    "Applied Data Science with Python - Coursera",
    "Machine Learning - Stanford Online",
    "Data Science: R Basics - Harvard",
    "Python for Data Science and Machine Learning Bootcamp - Udemy",
    "Deep Learning Specialization - Coursera",
    "Statistics with R - Duke University",
    "Data Science MicroMasters - edX",
    "IBM Data Science Professional Certificate - Coursera"
  ]

  const WebCourse: seq<string> := [
    "The Complete Web Developer in 2023 - Udemy",
    "Full Stack Web Development - Coursera",
    "JavaScript: Understanding the Weird Parts - Udemy",
    "React - The Complete Guide - Udemy",
    "The Web Developer Bootcamp - Udemy",
    "Modern JavaScript From The Beginning - Udemy",
    "CSS - The Complete Guide - Udemy",
    "Node.js, Express & MongoDB - Udemy",
    "Advanced CSS and Sass - Udemy"
  ]

  const AndroidCourse: seq<string> := [
    "Android App Development Specialization - Coursera",
    "The Complete Android Developer Course - Udemy",
    "Android Java Masterclass - Udemy",
    "Kotlin for Android: Beginner to Advanced - Udemy",
    "Android Architecture Masterclass - Udemy",
    "Flutter & Dart - The Complete Guide - Udemy",
    "Modern Android App Development - edX",
    "Android App Development with Kotlin - Pluralsight",
    "Firebase in a Weekend: Android - Udacity"
  ]

  const IosCourse: seq<string> := [
    "iOS App Development with Swift Specialization - Coursera",
    "iOS & Swift - The Complete iOS App Development Bootcamp - Udemy",
    "SwiftUI Masterclass - Udemy",
    "iOS 13 & Swift 5 - The Complete iOS App Development Bootcamp - Udemy",
    "iOS Development with Swift - edX",
    "Swift 5 Programming - LinkedIn Learning",
    "Objective-C for Swift Developers - Udemy",
    "Core Data for iOS Developers - Pluralsight",
    "ARKit for iOS Developers - Udemy"
  ]

  const UiuxCourse: seq<string> := [
    "UI / UX Design Specialization - Coursera",
    "User Experience Research and Design - Coursera",
    "The Complete App Design Course - Udemy",
    "UI Design - Udemy",
    "UX & Web Design Master Course - Udemy",
    "Adobe XD - UI/UX Design - Udemy",
    "Figma - UI/UX Design Essential Training - LinkedIn Learning",
    "Design Thinking - edX",
    "Human-Computer Interaction - Coursera"
  ]

  const DevOpsCourse: seq<string> := [
    "Docker and Kubernetes: The Complete Guide - Udemy",
    "AWS Certified DevOps Engineer - A Cloud Guru",
    "DevOps with GitHub - LinkedIn Learning",
    "CI/CD with Jenkins - Pluralsight",
    "Terraform for AWS - Udemy"
  ]

  const CyberCourse: seq<string> := [
    "Ethical Hacking - Udemy",
    "CompTIA Security+ Certification - Coursera",
    "Cybersecurity Specialization - Coursera",
    "Web Security - Stanford Online",
    "Network Security - edX"
  ]

  /** The course table of `recommend_courses`, keyed by field name. */
  const Courses: map<string, seq<string>> := map[
    "Data Science" := DsCourse,
    "Web Development" := WebCourse,
    "Android Development" := AndroidCourse,
    "iOS Development" := IosCourse,
    "UI/UX Design" := UiuxCourse,
    "DevOps" := DevOpsCourse,
    "Cybersecurity" := CyberCourse
  ]

  /** `recommend_courses`: the field's courses, or the data-science list for any other name. */
  function RecommendCourses(field: string): (courses: seq<string>)
    ensures field in Courses ==> courses == Courses[field]
    ensures field !in Courses ==> courses == DsCourse
  {
    if field in Courses then Courses[field] else DsCourse
  }

  /** The seven field names, as a set. */
  const FieldNameSet: set<string> := {
    "Data Science", "Web Development", "Android Development", "iOS Development",
    "UI/UX Design", "DevOps", "Cybersecurity"
  }

  lemma CourseKeys()
    ensures Courses.Keys == FieldNameSet
  {
  }

  lemma FieldNamesAreSet()
    ensures (set k | 0 <= k < |Fields| :: Fields[k].name) == FieldNameSet
  {
    var names := set k | 0 <= k < |Fields| :: Fields[k].name;
    assert Fields[0].name in names && Fields[1].name in names && Fields[2].name in names;
    assert Fields[3].name in names && Fields[4].name in names && Fields[5].name in names;
    assert Fields[6].name in names;
  }

  /**
    The course table has exactly the field table's names as keys, so every recommended field
    but the fallback has its own list, and the fallback gets the data-science list.
   */
  lemma CoursesCoverFields()
    ensures Courses.Keys == set k | 0 <= k < |Fields| :: Fields[k].name
    ensures RecommendCourses(GeneralField) == DsCourse
  {
    CourseKeys();
    FieldNamesAreSet();
    assert GeneralField !in FieldNameSet;
  }

  /** Every course list the lookup can return has at least the five entries the page shows. */
  lemma CoursesAtLeastFive(field: string)
    ensures |RecommendCourses(field)| >= 5
  {
  }
}

/** A worked case of the field recommendation: two fields tie and the earlier one wins. */
module RecommendExamples {
  import opened Text
  import opened Recommend

  const DockerAndJavaScript: seq<string> := ["Docker", "JavaScript"]

  /** Docker and JavaScript appear neither in Data Science nor in Android Development. */
  lemma TieMissesA()
    ensures Match(DockerAndJavaScript, 0) == 0 && Match(DockerAndJavaScript, 2) == 0
  {
    NoCommonSkill(DockerAndJavaScript, Fields[0].skills);
    NoCommonSkill(DockerAndJavaScript, Fields[2].skills);
  }

  /** Docker and JavaScript appear in none of iOS Development, UI/UX Design and Cybersecurity. */
  lemma TieMissesB()
    ensures Match(DockerAndJavaScript, 3) == 0 && Match(DockerAndJavaScript, 4) == 0 && Match(DockerAndJavaScript, 6) == 0
  {
    NoCommonSkill(DockerAndJavaScript, Fields[3].skills);
    NoCommonSkill(DockerAndJavaScript, Fields[4].skills);
    NoCommonSkill(DockerAndJavaScript, Fields[6].skills);
  }

  /** JavaScript is Web Development's only match, Docker DevOps's only one. */
  lemma TieHits()
    ensures Match(DockerAndJavaScript, 1) == 1 && Match(DockerAndJavaScript, 5) == 1
  {
    assert ToSet(DockerAndJavaScript) * ToSet(Fields[1].skills) == {"JavaScript"};
    assert ToSet(DockerAndJavaScript) * ToSet(Fields[5].skills) == {"Docker"};
  }

  /** Docker and JavaScript match Web Development and DevOps once each: Web Development, the earlier field, is the first best. */
  lemma TieGoesToEarlierField()
    ensures IsFirstBest(DockerAndJavaScript, 1)
    ensures Match(DockerAndJavaScript, 5) == Match(DockerAndJavaScript, 1)
  {
    var skills := DockerAndJavaScript;
    TieHits();
    TieMissesA();
    TieMissesB();
    forall j | 0 <= j < |Fields|
      ensures Match(skills, j) <= Match(skills, 1)
    {
      assert j == 0 || j == 1 || j == 2 || j == 3 || j == 4 || j == 5 || j == 6;
    }
  }
}
