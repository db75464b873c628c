/**
  The résumé profile: the dictionary that `parse_resume` builds and the scorer reads with
  `dict.get`. Every key may be absent, so every field is an `Option`; the doc comment on each
  field names the dictionary key it stands for.
 */
module Profile {
  import opened Wrappers

  /** The sentinel the extractor stores for a field it found nothing for. */
  const NotFound: string := "Not found"

  datatype ResumeData = ResumeData(
    /** key 'name' */
    name: Option<string>,
    /** key 'email' */
    email: Option<string>,
    /** key 'phone' (written by the extractor, never read by the scorer) */
    phone: Option<string>,
    /** key 'mobile_number' (read by the scorer, never written by the extractor) */
    mobileNumber: Option<string>,
    /** key 'skills' */
    skills: Option<seq<string>>,
    /** key 'education' */
    education: Option<seq<string>>,
    /** key 'experience' */
    experience: Option<seq<string>>,
    /** key 'total_experience' */
    totalExperience: Option<int>,
    /** key 'degree' */
    degree: Option<string>,
    /** key 'college_name' */
    collegeName: Option<string>,
    /** key 'projects' */
    projects: Option<seq<string>>,
    /** key 'certifications' */
    certifications: Option<seq<string>>,
    /** key 'achievements' */
    achievements: Option<seq<string>>,
    /** key 'summary' */
    summary: Option<string>
  )

  /** Python truthiness of `d.get(key)` for a string key: present and non-empty. */
  predicate Truthy(v: Option<string>) {
    v.Some? && v.value != []
  }

  /** `len(d.get(key, []))` for a list key. */
  function CountOf(v: Option<seq<string>>): nat {
    |v.GetOr([])|
  }
}
