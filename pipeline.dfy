/** How the gazetteer of `parse_resume` meets the field table of `recommend_field`. */
module GazetteerFields {
  import opened Parser
  import opened Recommend

  lemma Row1MissesUiUx()
    ensures forall k :: 0 <= k < |UiUxDesign.skills| ==> UiUxDesign.skills[k] !in SkillsRow1
  {
  }

  lemma Row2MissesUiUx()
    ensures forall k :: 0 <= k < |UiUxDesign.skills| ==> UiUxDesign.skills[k] !in SkillsRow2
  {
  }

  lemma Row3MissesUiUx()
    ensures forall k :: 0 <= k < |UiUxDesign.skills| ==> UiUxDesign.skills[k] !in SkillsRow3
  {
  }

  lemma Row4MissesUiUx()
    ensures forall k :: 0 <= k < |UiUxDesign.skills| ==> UiUxDesign.skills[k] !in SkillsRow4
  {
  }

  /** No UI/UX Design skill is a gazetteer entry. */
  lemma GazetteerMissesUiUx()
    ensures forall k :: 0 <= k < |UiUxDesign.skills| ==> UiUxDesign.skills[k] !in SkillsList
  {
    Row1MissesUiUx();
    Row2MissesUiUx();
    Row3MissesUiUx();
    Row4MissesUiUx();
  }
}

/**
  The analysis page end to end: `parse_resume` produces a profile, the scorer rates it, the
  recommender reads its skills, and the page shows an experience level beside it. The lemmas
  here follow a parsed profile through those steps.
 */
module Pipeline {
  import opened Wrappers
  import opened Text
  import opened Profile
  import opened Parser
  import opened Scoring
  import opened Recommend
  import opened GazetteerFields

  /** The experience level shown for a profile: Fresher at 0 years, Intermediate below 3, Experienced from 3. */
  function ExperienceLevel(d: ResumeData): (level: string)
    ensures level in {"Fresher", "Intermediate", "Experienced"}
    ensures level == "Fresher" <==> d.totalExperience.GetOr(0) == 0
    ensures level == "Intermediate" <==> d.totalExperience.GetOr(0) != 0 && d.totalExperience.GetOr(0) < 3
    ensures level == "Experienced" <==> d.totalExperience.GetOr(0) >= 3
  {
    var experience := d.totalExperience.GetOr(0);
    if experience == 0 then "Fresher" else if experience < 3 then "Intermediate" else "Experienced"
  }

  /**
    The level and the experience points agree: a Fresher earns no experience points, an
    Intermediate 2 or 4, an Experienced candidate at least 6.
   */
  lemma ExperienceLevelMatchesPoints(d: ResumeData)
    requires SaneYears(d)
    ensures ExperienceLevel(d) == "Fresher" <==> Rubric(d).experience == 0
    ensures ExperienceLevel(d) == "Intermediate" <==> Rubric(d).experience in {2, 4}
    ensures ExperienceLevel(d) == "Experienced" <==> Rubric(d).experience >= 6
  {
  }

  /** The degree the extractor stores is never empty: either the sentinel or a window holding a keyword. */
  lemma {:induction false} DegreeNonEmpty(sents: seq<string>)
    ensures DegreeOf(sents) != []
  {
    if sents != [] {
      var t := Lower(sents[0]);
      if HasKeyword(t, EducationKeywords) {
        var k := FirstKeyword(t, EducationKeywords);
        EducationKeywordShape(k);
        LowerIsLowerCase(sents[0]);
        DegreeWindowShape(t, EducationKeywords[k]);
      } else {
        DegreeNonEmpty(sents[1..]);
      }
    }
  }

  /** The email the extractor stores is never empty: either the sentinel or a line with an '@'. */
  lemma EmailNonEmpty(lines: seq<string>)
    ensures EmailOf(lines) != []
  {
    EmailIsFirstAtLine(lines);
  }

  /**
    What a parsed profile scores: 3 contact points for the always-present email and 3 more for a
    non-empty first line, never the 4 phone points (the extractor writes 'phone', the scorer reads
    'mobile_number'); all 10 education points, since the college is always the sentinel; nothing
    for summary, certifications or achievements; so a total between 28 and 61.
   */
  lemma ParsedProfileScore(text: string, sents: seq<string>)
    ensures var b := Rubric(ParsedProfile(text, sents));
      b.contact == (if Lines(text)[0] == [] then 3 else 6)
      && b.education == 10
      && b.summary == 0 && b.certifications == 0 && b.achievements == 0
      && 28 <= Total(b) <= 61
  {
    var d := ParsedProfile(text, sents);
    EmailNonEmpty(Lines(text));
    DegreeNonEmpty(sents);
    var b := Rubric(d);
    TotalIsCategorySum(b);
    assert 0 <= b.skills <= 10 && 0 <= b.experience <= 10 && 0 <= b.projects <= 10;
  }

  /** An empty résumé (no text, no sentences) scores 28, not the 15 of an empty profile. */
  lemma EmptyResumeScores28()
    ensures Total(Rubric(ParsedProfile("", []))) == 28
  {
    var d := ParsedProfile("", []);
    assert Lines("") == [""];
    NoSkillsInEmptyText();
    assert Classified([], ProjectKeywords) == [];
    ParsedProfileScore("", []);
    TotalIsCategorySum(Rubric(d));
  }

  /**
    The parsed skills are exactly the gazetteer entries whose lower-case form occurs in the
    lower-cased text, each once.
   */
  lemma ParsedSkillsExact(text: string, sents: seq<string>)
    ensures var skills := ParsedProfile(text, sents).skills.value;
      NoDuplicates(skills)
      && forall x :: x in skills <==> x in SkillsList && Contains(Lower(text), Lower(x))
  {
    SkillsListNoDuplicates();
    SkillsInNoDuplicates(SkillsList, Lower(text));
    SkillsInMembers(SkillsList, Lower(text));
  }

  /**
    UI/UX Design is never recommended from the skills `parse_resume` extracts: none of that
    field's skills is in the gazetteer, so its match is always 0.
   */
  lemma ParsedSkillsNeverUiUx(text: string, sents: seq<string>)
    ensures var skills := ParsedProfile(text, sents).skills.value;
      Match(skills, 4) == 0 && !IsFirstBest(skills, 4)
  {
    var skills := ParsedProfile(text, sents).skills.value;
    SkillsInMembers(SkillsList, Lower(text));
    GazetteerMissesUiUx();
    assert ToSet(skills) * ToSet(Fields[4].skills) == {};
  }
}
