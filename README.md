# Résumé analyzer core, modelled in Dafny

This project models the analysis core of the AI Resume Analyzer (`ResumeAnalyzer.py`). The
core has four parts:

- **Extraction.** `parse_resume` turns a résumé's text into a profile. The profile holds the
  name, email and phone; the skills found from a fixed skill list; the education, experience
  and project sentences; the degree window; and the largest "N years" figure.
- **Scoring.** `get_resume_score_breakdown` and `calculate_resume_score` map a profile to a
  ten-category rubric and its sum.
- **Recommendation.** `recommend_field` picks the career field whose skills overlap most
  with the candidate's. `recommend_skills` samples up to five skills the candidate lacks.
  `recommend_courses` looks up the course list for a field.
- **Display and clean-up.** The experience level shown on the analysis page. The text
  clean-up and the personal-information skill filter from `analyze_resume`.

Modules:

- `Wrappers`: an `Option` type. Python's `dict.get` with a default becomes `GetOr`.
- `Text`: the string operations the source relies on. These are `lower`, `in` on strings,
  `find`, `strip`, `split(c)` and `split()`.
- `Profile`: the `resume_data` dictionary, as a record of optional fields. It also has
  Python truthiness (`Truthy`) and `len` of a missing list (`CountOf`).
- `Years`: `re.findall` of the four year patterns and `int(...)` of the leading digit run.
- `Parser`: `parse_resume`. Each of its loops is a method with loop invariants, proved
  against a specification function.
- `Scoring`: the rubric as a method that updates the breakdown key by key, and its sum.
- `Recommend`: field and skill recommendation. `RecommendExamples` works through a tie
  between two fields.
- `CourseCatalog`: the course lists and `recommend_courses`.
- `Analyze`: the clean-up regexes and the personal-information filter.
- `GazetteerFields` and `Pipeline`: properties that span modules. These cover the
  experience level, the score a parsed profile earns, and which fields parsed skills can reach.

How the model treats inputs:

- The text and the sentence segmentation (`doc.sents`) are inputs. The natural-language
  library is not modelled.
- Skill sampling is a nondeterministic choice. Every sample obeys the stated contract.

Consequences of the code as written that its output does not show:

- The contact score reads the key `mobile_number` (ResumeAnalyzer.py:804). `parse_resume`
  never writes that key; it writes `phone` (ResumeAnalyzer.py:242). So parsed profiles never
  earn the 4 phone points (see `Scoring.NoMobileNumberNoPhonePoints` and
  `Pipeline.ParsedProfileScore`).
- The sentinel "Not found" (ResumeAnalyzer.py:241, 247-248) is a non-empty string. So the
  truthiness tests at ResumeAnalyzer.py:803 and 807-808 count it as present. A résumé with no
  text at all still scores 28 (`Pipeline.EmptyResumeScores28`).
- Formatting and keywords are fixed at 8 and 7 points (ResumeAnalyzer.py:833-835). Every
  other category is capped at 10. The page shows the score out of 100 (ResumeAnalyzer.py:682),
  but the total lies between 15 and 95 and never reaches 100 (`Scoring.TotalBounds`,
  `Scoring.PerfectScore`).
- The personal-information filter (ResumeAnalyzer.py:402-410) compares whole tokens, not
  substrings. "reactdev@…" does not remove "React", but a name token "React" does
  (`Analyze.EmailSubstringKeepsSkill`, `Analyze.NameTokenDropsSkill`).
- None of the UI/UX Design field skills is in the skill list `parse_resume` searches. A parsed
  profile can therefore never be recommended UI/UX Design (`Pipeline.ParsedSkillsNeverUiUx`).

## Model

| member | source | states |
|---|---|---|
| Parser.ParseResume | ResumeAnalyzer.py:234-330 | the profile has the first line as name, the email and phone lines, the skills, the education/experience/project sentences, the degree and the largest year figure; mobile number is absent, college is "Not found", certifications, achievements and summary are empty |
| Parser.EmailOf | ResumeAnalyzer.py:241 | the email is either "Not found" or one of the text's lines that contains '@' |
| Parser.PhoneOf | ResumeAnalyzer.py:242 | the phone is either "Not found" or one of the text's lines that has a digit and is shorter than 20 characters |
| Parser.EmailIsFirstAtLine | ResumeAnalyzer.py:241 | the email is "Not found" exactly when no line contains '@'; otherwise it is the first line that does |
| Parser.PhoneIsFirstPhoneLine | ResumeAnalyzer.py:242 | the phone is "Not found" exactly when no line has a digit and is shorter than 20 characters; otherwise it is the first such line |
| Parser.ExtractSkills | ResumeAnalyzer.py:270-272 | the skills are the skill-list entries whose lower-case form occurs in the lower-cased text, in list order |
| Parser.ScanGazetteer | ResumeAnalyzer.py:270-272 | the loop appends, in order, exactly the entries whose lower-case form occurs in the lower-cased text |
| Parser.SkillsInMembers | ResumeAnalyzer.py:270-272 | a string is among the found skills exactly when it is in the list and its lower-case form occurs in the lower-cased text |
| Parser.SkillsInAppend | ResumeAnalyzer.py:270-272 | scanning two parts of the skill list one after the other finds the concatenation of what each part finds |
| Parser.SkillsInNoDuplicates | ResumeAnalyzer.py:270-272 | a skill list without repeats yields found skills without repeats |
| Parser.SkillsListNoDuplicates | ResumeAnalyzer.py:259-268 | the 56-entry skill list has no repeated entry, so no skill is reported twice |
| Parser.NoSkillsInEmptyText | ResumeAnalyzer.py:270-272 | empty text yields no skills |
| Parser.ExtractEducation | ResumeAnalyzer.py:275-293 | the education sentences are those whose lower-case form contains an education keyword, in order; the degree is the first such sentence's window, or "Not found" |
| Parser.ClassifiedMembers | ResumeAnalyzer.py:278-281 | a sentence is kept exactly when it is an input sentence containing one of the keywords once lower-cased |
| Parser.ClassifiedAppend | ResumeAnalyzer.py:278-281 | classifying two batches of sentences in turn keeps the concatenation of what each batch keeps |
| Parser.EducationStep | ResumeAnalyzer.py:278-291 | one more sentence joins the education sentences exactly when it has an education keyword, and sets the degree only while the degree is still "Not found" |
| Parser.SentenceDegree | ResumeAnalyzer.py:285-291 | the keyword loop yields the window around the first keyword, in list order, that the sentence contains |
| Parser.FirstKeyword | ResumeAnalyzer.py:285-291 | the keyword that sets the degree is the first keyword in list order that the sentence contains |
| Parser.DegreeWindow | ResumeAnalyzer.py:288-290 | the stripped window around the keyword is at most 30 characters and no longer than the sentence |
| Parser.DegreeWindowShape | ResumeAnalyzer.py:288-290 | the degree window is at most 30 characters, still contains the keyword and is never the sentinel |
| Parser.DegreeSentinelIffNoEducation | ResumeAnalyzer.py:284-293 | the degree is "Not found" exactly when no sentence is an education sentence |
| Parser.DegreeNeverOverwritten | ResumeAnalyzer.py:284 | once an education sentence has set the degree, later sentences leave it unchanged |
| Parser.DegreeSkipsNonEducation | ResumeAnalyzer.py:280-284 | sentences without an education keyword before the first education sentence do not affect the degree |
| Parser.ExtractExperience | ResumeAnalyzer.py:296-317 | the experience sentences are those containing an experience keyword, in order, and the total is the maximum of every year figure they mention, 0 if none |
| Parser.ExperienceStep | ResumeAnalyzer.py:299-313 | one more sentence joins the experience sentences exactly when it has an experience keyword, and only then can its year figure raise the total |
| Parser.RaiseByYears | ResumeAnalyzer.py:305-315 | running the four patterns over a sentence leaves the larger of the previous total and the sentence's largest match |
| Parser.TotalExperienceAppend | ResumeAnalyzer.py:313 | the total of two batches of sentences is the larger of their totals |
| Parser.TotalExperienceIsLargestMention | ResumeAnalyzer.py:305-313 | every "N years"/"N year"/"N+ years"/"N+ year" figure in an experience sentence is at most the total, and a non-zero total is one of those figures |
| Parser.ExtractProjects | ResumeAnalyzer.py:320-328 | the projects are the first min(5, n) of the n project sentences, in order |
| Years.FindAll | ResumeAnalyzer.py:308 | the scan finds at most one value per six characters scanned: each match takes a digit and a suffix of at least five characters |
| Years.FindAllExact | ResumeAnalyzer.py:308 | the scan over the sentence finds a value exactly when a maximal digit run followed by the pattern's suffix starts at or after the scan position and has that value |
| Years.PatternMatchesAreMentions | ResumeAnalyzer.py:305-312 | the values matched by the four patterns are exactly the values of digit runs followed by " year" or "+ year" |
| Years.SentenceYearsIsLargestMention | ResumeAnalyzer.py:306-313 | a sentence's figure bounds every mention in it and, when non-zero, is one of them |
| Years.SeqMaxAppend | ResumeAnalyzer.py:313 | the running maximum over two lists of matches is the larger of their maxima |
| Scoring.GetResumeScoreBreakdown | ResumeAnalyzer.py:787-837 | the breakdown is the rubric: contact 3/3/4 for name, email and mobile number; education 5/5 for degree and college; skills, experience (two per year), projects, certifications and achievements (two each) capped at 10; 10 for a summary; 8 and 7 for formatting and keywords |
| Scoring.Rubric | ResumeAnalyzer.py:787-837 | formatting is 8 and keywords 7; contact and education are at most 10; with a non-negative experience figure every category is between 0 and 10 |
| Scoring.CalculateResumeScore | ResumeAnalyzer.py:783-785 | the score is the sum of the breakdown's values, between 15 and 95 for a non-negative experience figure |
| Scoring.TotalIsCategorySum | ResumeAnalyzer.py:785 | the sum of the values is the sum of the ten categories |
| Scoring.TotalOfInRange | ResumeAnalyzer.py:785 | ten categories each within 0 to 10 sum to between 0 and 100 |
| Scoring.TotalBounds | ResumeAnalyzer.py:783-837 | with a non-negative experience figure the total is between 15 and 95 |
| Scoring.ContactPoints | ResumeAnalyzer.py:802-804 | contact points are one of 0, 3, 4, 6, 7, 10; 10 exactly when name, email and mobile number are all present, 0 exactly when none is |
| Scoring.NoMobileNumberNoPhonePoints | ResumeAnalyzer.py:802-804 | without a 'mobile_number' key contact earns at most 6, whatever 'phone' holds |
| Scoring.SentinelEarnsPoints | ResumeAnalyzer.py:807-808 | a degree and college of "Not found" still earn the full 10 education points |
| Scoring.PerfectScore | ResumeAnalyzer.py:787-837 | the total is 95 exactly when all contact and education fields are present, there are at least 10 skills, 5 years, 5 projects, 5 certifications, 5 achievements and a summary |
| Scoring.EmptiestScore | ResumeAnalyzer.py:787-837 | the total is 15 exactly when nothing but formatting and keywords earns points |
| Recommend.RecommendField | ResumeAnalyzer.py:854-875 | the result is "General Software Development" exactly when no field shares a skill with the candidate; otherwise it is the name of the first field with the greatest overlap |
| Recommend.FirstBestUnique | ResumeAnalyzer.py:869-873 | the first field with the greatest overlap is unique, so the recommendation is determined by the skills |
| Recommend.FieldNamesDistinct | ResumeAnalyzer.py:855-867 | the seven field names are distinct and none is the default field |
| RecommendExamples.TieGoesToEarlierField | ResumeAnalyzer.py:869-873 | Docker and JavaScript tie Web Development with DevOps at one skill each, and the strict comparison gives Web Development |
| Recommend.RecommendSkills | ResumeAnalyzer.py:839-852 | the sample has min(5, n) entries for the n known skills the candidate lacks, none repeated, each a known skill the candidate lacks |
| Recommend.Gap | ResumeAnalyzer.py:849 | a skill is recommendable exactly when it is one of the known skills and not one of the candidate's |
| Recommend.SampleExists | ResumeAnalyzer.py:852 | for every size up to the gap's size there is a repeat-free sample drawn from the gap |
| Recommend.FullSampleForNewcomer | ResumeAnalyzer.py:839-852 | a candidate with none of the known skills is always offered five |
| CourseCatalog.RecommendCourses | ResumeAnalyzer.py:877-901 | a known field gets its own course list and any other string gets the data-science list |
| CourseCatalog.CoursesCoverFields | ResumeAnalyzer.py:877-901 | the course table has exactly the seven recommendable fields as keys, so "General Software Development" gets the data-science list |
| CourseCatalog.CoursesAtLeastFive | ResumeAnalyzer.py:877-901 | every field, known or not, gets at least five courses |
| Pipeline.ExperienceLevel | ResumeAnalyzer.py:649-650 | the level is one of Fresher, Intermediate and Experienced: Fresher exactly when the total experience (0 when absent) is 0, Intermediate exactly when it is non-zero and below 3, Experienced exactly when it is at least 3 |
| Pipeline.ExperienceLevelMatchesPoints | ResumeAnalyzer.py:649-650 | Fresher exactly when the experience points are 0, Intermediate exactly when they are 2 or 4, Experienced exactly when they are at least 6 |
| Pipeline.ParsedProfileScore | ResumeAnalyzer.py:234-330 | a parsed profile earns 3 or 6 contact points (6 unless the first line is empty), 10 education points, nothing for certifications, achievements and summary, and totals between 28 and 61 |
| Pipeline.EmptyResumeScores28 | ResumeAnalyzer.py:239-253 | an empty résumé scores 28 |
| Pipeline.ParsedSkillsExact | ResumeAnalyzer.py:259-272 | parsed skills have no repeats and are exactly the list entries occurring in the text, ignoring case |
| GazetteerFields.GazetteerMissesUiUx | ResumeAnalyzer.py:259-268 | none of the UI/UX Design field's skills is in the skill list |
| Pipeline.ParsedSkillsNeverUiUx | ResumeAnalyzer.py:860 | parsed skills never overlap the UI/UX Design field, so it is never the first best field |
| Analyze.CollapseCommas | ResumeAnalyzer.py:342 | text without commas is unchanged, and the result is empty exactly when the text is |
| Analyze.CollapseSpaces | ResumeAnalyzer.py:343 | the result is no longer than the text, is empty exactly when the text is, and text without whitespace is unchanged |
| Analyze.Clean | ResumeAnalyzer.py:342-344 | the cleaned text has no leading or trailing whitespace, and text with neither whitespace nor commas is unchanged |
| Analyze.CleanShape | ResumeAnalyzer.py:342-344 | the cleaned text has no leading or trailing whitespace, no run of whitespace, no adjacent commas and a space after every comma but a final one |
| Analyze.ContentClean | ResumeAnalyzer.py:342-344 | clean-up keeps every character other than whitespace and commas, in order |
| Analyze.PersonalInfo | ResumeAnalyzer.py:402-408 | the personal tokens are the whitespace words of the lower-cased name, the '@' pieces of the lower-cased email and the words of the lower-cased phone, each only when present and not "Not found" (the name only when non-empty) |
| Analyze.FilterSkills | ResumeAnalyzer.py:410 | a found skill is kept exactly when its lower-case form is not a personal token, and nothing else is kept |
| Analyze.MultiWordSkillsSurvive | ResumeAnalyzer.py:402-410 | a skill containing a space is never filtered out, as long as a found email (one that is neither absent, empty nor "Not found") contains no whitespace |
| Analyze.NameTokenDropsSkill | ResumeAnalyzer.py:403-410 | for a candidate named "React Sharma", React is dropped and Python kept |
| Analyze.EmailSubstringKeepsSkill | ResumeAnalyzer.py:405-410 | the email "reactdev@example.com" does not remove React, since tokens are compared whole |
| Analyze.SentinelFiltersNothing | ResumeAnalyzer.py:405-410 | an email and phone of "Not found" filter nothing |

## Left out

- Reading the PDF (`extract_text`, pdfminer) is not modelled. The text is a parameter.
- Sentence segmentation and named-entity recognition (spaCy, NLTK) are not modelled. The
  sentences, and the name in `analyze_resume`, are parameters.
- The rest of `analyze_resume` is not modelled: the entity loop, the phrase matcher, the
  ORG-entity experience list and the email/phone regular expressions. Their results are
  inputs to the filter.
- The Streamlit UI, the PDF report, the Selenium job search, geolocation, and the
  `cache_data` memoization are not modelled. None of them is part of the analysis logic.
- Recommend.RecommendSkills: the distribution of `random.sample` is not modelled. The
  sample is any choice that meets the contract.
- `resume_score` as a float, and the progress-bar display, are not modelled. The score is
  the integer sum.
- Text.IsSpace is exactly the ASCII whitespace of Python's `str.isspace`: space, `\t`, `\n`,
  `\r`, `\v`, `\f` and the separators `\x1c` to `\x1f`. Non-ASCII spaces are not modelled as
  whitespace. Python's `\s`, `split()` and `strip()` also treat `\x85`, `\xa0`, `\u1680`,
  `\u2000` to `\u200a`, `\u2028`, `\u2029`, `\u202f`, `\u205f` and `\u3000` as whitespace.
- Text.Lower and Text.IsDigit cover ASCII only. Python's `lower` and `\d` also handle other
  Unicode letters and digits.
- Parser.ExtractExperience: the `except: pass` branch around `int(...)` is never taken,
  because every match starts with a digit run. The model has no error path there.
- Scoring.TotalBounds: the bounds 15 and 95 are stated only for a non-negative experience
  figure (`SaneYears`), which every parsed profile has. A hand-built profile with a negative
  `total_experience` earns negative experience points and totals less. It is also shown as
  "Intermediate".
