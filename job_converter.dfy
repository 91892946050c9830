/**
 * The keyword classifiers of `JobConverter` (convert_fetched_jobs_to_api_format.py) and
 * the field assembly of `convert_job`. Every classifier is a precedence chain of
 * substring tests on lower-cased text. The cleaned description, the salary triple, the
 * keyword skill list, the expiry date and the skill-tree file found for the job come
 * from code this model leaves out, so `ConvertJob` takes them as parameters.
 */
module JobConvert {
  import opened Wrappers
  import opened PyText
  import opened JsonValue
  import opened SkillCollector

  // ---------------------------------------------------------------------------
  // Location type
  // ---------------------------------------------------------------------------

  /**
   * The lower-cased location, the empty string for a falsy one; `None` where lower-casing raises, that is for
   * a truthy value that is not a string.
   */
  function LocationLower(location: Json): (r: Option<string>)
    ensures r.Some? <==> !Truthy(location) || location.Str?
    ensures location.Str? ==> r == Some(Lower(location.s))
  {
    if !Truthy(location) then Some("")
    else if location.Str? then Some(Lower(location.s))
    else None
  }

  /** `c in location` for a one-character string `c`; `None` where `in` raises TypeError. */
  function HasChar(location: Json, c: char): (r: Option<bool>)
    ensures r.Some? <==> location.Str? || location.Arr? || location.Obj?
    ensures location.Str? ==> r == Some(c in location.s)
  {
    match location
    case Str(s) => Some(c in s)
    case Arr(items) => Some(Str([c]) in items)
    case Obj(fields) => Some([c] in Keys(fields))
    case _ => None
  }

  /** The text the first three tests look at: the lower-cased location, a space, the lower-cased description. */
  function LocationText(locationLower: string, description: string): string {
    locationLower + " " + Lower(description)
  }

  predicate MentionsRemote(c: string) { Contains(c, "remote") }

  predicate MentionsMixed(c: string) {
    Contains(c, "hybrid") || Contains(c, "onsite") || Contains(c, "in-office")
  }

  predicate MentionsOffice(c: string) {
    Contains(c, "onsite") || Contains(c, "in-office") || Contains(c, "in office")
  }

  /**
   * `extract_location_type`; `None` when it raises (a truthy non-string location, or a
   * falsy one that is not a container when the last test is reached).
   */
  function LocationType(location: Json, description: string): (r: Option<string>)
    ensures r.Some? ==> r.value in {"hybrid", "remote", "onsite"}
  {
    match LocationLower(location)
    case None => None
    case Some(lower) =>
      var c := LocationText(lower, description);
      if MentionsRemote(c) && MentionsMixed(c) then Some("hybrid")
      else if MentionsRemote(c) then Some("remote")
      else if MentionsOffice(c) then Some("onsite")
      else if Contains(lower, "remote") then Some("remote")
      else
        match (HasChar(location, ';'), HasChar(location, ','))
        case (Some(semi), Some(comma)) => if semi || comma then Some("hybrid") else Some("onsite")
        case _ => None
  }

  /** Anything the location mentions, the combined text mentions too. */
  lemma LocationTextContains(lower: string, description: string, sub: string)
    requires Contains(lower, sub)
    ensures Contains(LocationText(lower, description), sub)
  {
    ContainsExtend(lower, sub, "", " " + Lower(description));
    assert "" + lower + (" " + Lower(description)) == LocationText(lower, description);
  }

  /**
   * The test on the location alone (lines 116-117) never succeeds once the combined text
   * has been found not to mention "remote": the location is part of that text.
   */
  lemma LocationRemoteBranchDead(lower: string, description: string)
    requires !MentionsRemote(LocationText(lower, description))
    ensures !Contains(lower, "remote")
  {
    if Contains(lower, "remote") {
      LocationTextContains(lower, description, "remote");
    }
  }

  /** The classification on a string location, with the dead test removed, as iff's. */
  lemma LocationTypeCases(location: string, description: string)
    ensures var c := LocationText(Lower(location), description);
            var r := LocationType(Str(location), description);
            && r.Some?
            && (r.value == "remote" <==> MentionsRemote(c) && !MentionsMixed(c))
            && (r.value == "hybrid" <==>
                  (MentionsRemote(c) && MentionsMixed(c))
                  || (!MentionsRemote(c) && !MentionsOffice(c) && (';' in location || ',' in location)))
            && (r.value == "onsite" <==>
                  !MentionsRemote(c) && (MentionsOffice(c) || (';' !in location && ',' !in location)))
  {
    var lower := Lower(location);
    if location == "" {
      assert LocationLower(Str(location)) == Some("");
    }
    if !MentionsRemote(LocationText(lower, description)) {
      LocationRemoteBranchDead(lower, description);
    }
  }

  /** A location naming several places (`;` or `,`) and no keywords is read as hybrid. */
  lemma SeveralPlacesIsHybrid(location: string, description: string)
    requires ';' in location
    requires var c := LocationText(Lower(location), description); !MentionsRemote(c) && !MentionsOffice(c)
    ensures LocationType(Str(location), description) == Some("hybrid")
  {
    LocationTypeCases(location, description);
  }

  // ---------------------------------------------------------------------------
  // Experience level
  // ---------------------------------------------------------------------------

  const SeniorWords: seq<string> := ["senior", "sr.", "lead", "principal", "staff", "architect"]
  const ExecutiveWords: seq<string> := ["executive", "director", "manager", "head of", "vp", "vice president"]
  const EntryWords: seq<string> := ["entry", "junior", "jr.", "associate", "intern", "internship"]
  const MidWords: seq<string> := ["mid-level", "mid level", "3+ years", "2+ years", "5+ years"]

  /** Some word of the list occurs in the text. */
  predicate AnyIn(combined: string, words: seq<string>) {
    exists k | 0 <= k < |words| :: Contains(combined, words[k])
  }

  /** Title and description, joined by a space, lower-cased. */
  function ExperienceText(title: Json, description: string): string
    requires IsScalar(title)
  {
    Lower(Show(title) + " " + description)
  }

  /** `extract_experience_level`: the first word list that matches decides. */
  function ExperienceLevel(title: Json, description: string): (r: string)
    requires IsScalar(title)
    ensures r in {"senior", "executive", "entry", "mid", ""}
  {
    var c := ExperienceText(title, description);
    if AnyIn(c, SeniorWords) then "senior"
    else if AnyIn(c, ExecutiveWords) then "executive"
    else if AnyIn(c, EntryWords) then "entry"
    else if AnyIn(c, MidWords) then "mid"
    else ""
  }

  /** Each answer holds exactly when its word list matches and no earlier list does. */
  lemma ExperienceLevelCases(title: Json, description: string)
    requires IsScalar(title)
    ensures var c, r := ExperienceText(title, description), ExperienceLevel(title, description);
            && (r == "senior" <==> AnyIn(c, SeniorWords))
            && (r == "executive" <==> !AnyIn(c, SeniorWords) && AnyIn(c, ExecutiveWords))
            && (r == "entry" <==> !AnyIn(c, SeniorWords) && !AnyIn(c, ExecutiveWords) && AnyIn(c, EntryWords))
            && (r == "mid" <==>
                  !AnyIn(c, SeniorWords) && !AnyIn(c, ExecutiveWords) && !AnyIn(c, EntryWords) && AnyIn(c, MidWords))
            && (r == "" <==>
                  !AnyIn(c, SeniorWords) && !AnyIn(c, ExecutiveWords) && !AnyIn(c, EntryWords) && !AnyIn(c, MidWords))
  {
  }

  /** How far up the precedence chain a level sits; `""` is lowest. */
  function LevelRank(level: string): (n: nat)
    ensures n <= 4
  {
    if level == "senior" then 4
    else if level == "executive" then 3
    else if level == "entry" then 2
    else if level == "mid" then 1
    else 0
  }

  /** More text can only add matches, so the level never moves down the chain. */
  lemma AnyInExtend(c: string, words: seq<string>, more: string)
    requires AnyIn(c, words)
    ensures AnyIn(c + more, words)
  {
    var k :| 0 <= k < |words| && Contains(c, words[k]);
    ContainsExtend(c, words[k], "", more);
    assert "" + c + more == c + more;
  }

  /** Appending to the description never lowers the experience level. */
  lemma ExperienceLevelMonotone(title: Json, description: string, more: string)
    requires IsScalar(title)
    ensures LevelRank(ExperienceLevel(title, description + more)) >= LevelRank(ExperienceLevel(title, description))
  {
    var t := Show(title) + " ";
    var c := ExperienceText(title, description);
    assert t + (description + more) == (t + description) + more;
    LowerConcat(t + description, more);
    assert ExperienceText(title, description + more) == c + Lower(more);
    if AnyIn(c, SeniorWords) { AnyInExtend(c, SeniorWords, Lower(more)); }
    if AnyIn(c, ExecutiveWords) { AnyInExtend(c, ExecutiveWords, Lower(more)); }
    if AnyIn(c, EntryWords) { AnyInExtend(c, EntryWords, Lower(more)); }
    if AnyIn(c, MidWords) { AnyInExtend(c, MidWords, Lower(more)); }
  }

  /** A title containing "senior" makes the job senior, whatever the description says. */
  lemma SeniorTitle(title: string, description: string, w: string)
    requires w == "senior" && Contains(Lower(title), w)
    ensures ExperienceLevel(Str(title), description) == "senior"
  {
    LowerConcat(title, " " + description);
    ContainsExtend(Lower(title), w, "", Lower(" " + description));
    assert "" + Lower(title) + Lower(" " + description) == ExperienceText(Str(title), description);
    assert SeniorWords[0] == w;
  }

  // ---------------------------------------------------------------------------
  // Employment type
  // ---------------------------------------------------------------------------

  predicate MentionsFullTime(d: string) { Contains(d, "full-time") || Contains(d, "full time") }
  predicate MentionsPartTime(d: string) { Contains(d, "part-time") || Contains(d, "part time") }

  /** `extract_employment_type`, with `"full-time"` as the default. */
  function EmploymentType(description: string): (r: string)
    ensures r in {"full-time", "part-time", "contract", "internship"}
  {
    var d := Lower(description);
    if MentionsFullTime(d) then "full-time"
    else if MentionsPartTime(d) then "part-time"
    else if Contains(d, "contract") then "contract"
    else if Contains(d, "internship") then "internship"
    else "full-time"
  }

  /** Every answer but the default is backed by its keyword, and earlier keywords win. */
  lemma EmploymentTypeCases(description: string)
    ensures var d, r := Lower(description), EmploymentType(description);
            && (r == "part-time" <==> !MentionsFullTime(d) && MentionsPartTime(d))
            && (r == "contract" <==> !MentionsFullTime(d) && !MentionsPartTime(d) && Contains(d, "contract"))
            && (r == "internship" <==>
                  !MentionsFullTime(d) && !MentionsPartTime(d) && !Contains(d, "contract") && Contains(d, "internship"))
            && (r != "full-time" ==> !MentionsFullTime(d))
  {
  }

  // ---------------------------------------------------------------------------
  // convert_job
  // ---------------------------------------------------------------------------

  const CompanyName: string := "xAI"
  const CompanyLogo: string := "https://x.ai/favicon.ico"

  /** The parts of a conversion that come from code this model leaves out. */
  datatype Extracted = Extracted(
    cleanDescription: string,      // clean_html_description of a truthy string description
    salaryMin: int,                // extract_salary(...)
    salaryMax: int,
    keywordSkills: string,         // extract_skills_from_description(clean_description)
    expiresAt: Option<string>,     // calculate_expires_at(job.get('updated_at')); None where
                                   // `dt + timedelta(days=90)` passes year 9999 and raises
    treeFile: Option<Json>)        // the first file the glob finds, parsed

  /** The keys of an API record, in the order `convert_job` writes them. */
  const ApiKeys: seq<string> := ["company_logo", "company_name", "description", "employment_type",
    "experience_level", "expires_at", "location", "location_type", "salary_currency", "salary_max",
    "salary_min", "skills_required", "title"]

  /** The `api_job` dict `convert_job` returns, one field per key. */
  datatype ApiJob = ApiJob(
    companyLogo: string, companyName: string, description: string, employmentType: string,
    experienceLevel: string, expiresAt: string, location: Json, locationType: string,
    salaryCurrency: string, salaryMax: int, salaryMin: int, skillsRequired: string, title: Json)
  {
    /** The dict as `json.dump` writes it, keys in insertion order. */
    function ToJson(): (r: Json)
      ensures r.Obj? && Keys(r.fields) == ApiKeys
    {
      Obj(Record(ApiKeys, [
        Str(companyLogo), Str(companyName), Str(description), Str(employmentType),
        Str(experienceLevel), Str(expiresAt), location, Str(locationType),
        Str(salaryCurrency), Int(salaryMax), Int(salaryMin), Str(skillsRequired), title]))
    }
  }

  /** `skills_required`: the skill tree is read only when asked for and the keywords found none. */
  function SkillsRequired(job: seq<(string, Json)>, useSkillTree: bool, x: Extracted): string {
    if useSkillTree && x.keywordSkills == "" then SkillsFromTree(Get(job, "id", Null), x.treeFile)
    else x.keywordSkills
  }

  /**
   * `clean_html_description(job.get('description', ''))`: `""` for a falsy description;
   * `None` for a truthy one that is not a string, where `html.unescape` or `re.sub` raises.
   */
  function CleanDescription(job: seq<(string, Json)>, x: Extracted): (r: Option<string>)
    ensures r.Some? <==> !Truthy(Get(job, "description", Str(""))) || Get(job, "description", Str("")).Str?
    ensures !Truthy(Get(job, "description", Str(""))) ==> r == Some("")
  {
    var d := Get(job, "description", Str(""));
    if !Truthy(d) then Some("")
    else if d.Str? then Some(x.cleanDescription)
    else None
  }

  /** `extract_salary` raises exactly when `salary_range` is truthy and not a string (`re.search`). */
  predicate SalaryRangeReadable(job: seq<(string, Json)>) {
    var s := Get(job, "salary_range", Null);
    !Truthy(s) || s.Str?
  }

  /**
   * `convert_job` on a job record; `None` when it raises: on the description, the salary
   * range, the location or the expiry date. A title that is a list or a
   * dict is not modelled (its f-string text is a Python repr).
   */
  function ConvertJob(job: seq<(string, Json)>, useSkillTree: bool, x: Extracted): (r: Option<ApiJob>)
    requires IsScalar(Get(job, "title", Str("")))
    ensures r.Some? <==>
              && CleanDescription(job, x).Some?
              && SalaryRangeReadable(job)
              && LocationType(Get(job, "location", Str("")), CleanDescription(job, x).value).Some?
              && x.expiresAt.Some?
  {
    match CleanDescription(job, x)
    case None => None
    case Some(clean) =>
      if !SalaryRangeReadable(job) then None
      else
        match LocationType(Get(job, "location", Str("")), clean)
        case None => None
        case Some(locationType) =>
          match x.expiresAt
          case None => None
          case Some(expiresAt) =>
            Some(ApiJob(
              CompanyLogo, CompanyName, clean, EmploymentType(clean),
              ExperienceLevel(Get(job, "title", Str("")), clean), expiresAt,
              Get(job, "location", Str("Not specified")), locationType, "USD",
              x.salaryMax, x.salaryMin, SkillsRequired(job, useSkillTree, x),
              Get(job, "title", Str("Unknown Position"))))
  }

  /** A truthy description or salary range that is not a string makes the conversion raise. */
  lemma NonStringFieldRaises(job: seq<(string, Json)>, useSkillTree: bool, x: Extracted)
    requires IsScalar(Get(job, "title", Str("")))
    requires var d, s := Get(job, "description", Str("")), Get(job, "salary_range", Null);
             (Truthy(d) && !d.Str?) || (Truthy(s) && !s.Str?)
    ensures ConvertJob(job, useSkillTree, x).None?
  {
  }

  /**
   * What a converted record holds: the fixed company and currency, classifier answers
   * from their ranges, the job's title and location or their defaults, and the skills
   * from the keywords unless the tree was needed.
   */
  lemma ConvertJobFields(job: seq<(string, Json)>, useSkillTree: bool, x: Extracted)
    requires IsScalar(Get(job, "title", Str("")))
    requires ConvertJob(job, useSkillTree, x).Some?
    ensures var r := ConvertJob(job, useSkillTree, x).value;
            && r.companyName == "xAI" && r.salaryCurrency == "USD"
            && r.expiresAt == x.expiresAt.value
            && r.description == (if Truthy(Get(job, "description", Str(""))) then x.cleanDescription else "")
            && r.employmentType in {"full-time", "part-time", "contract", "internship"}
            && r.experienceLevel in {"senior", "executive", "entry", "mid", ""}
            && r.locationType in {"hybrid", "remote", "onsite"}
            && r.title == Lookup(job, "title").GetOr(Str("Unknown Position"))
            && r.location == Lookup(job, "location").GetOr(Str("Not specified"))
            && (x.keywordSkills != "" ==> r.skillsRequired == x.keywordSkills)
            && (!useSkillTree ==> r.skillsRequired == x.keywordSkills)
  {
  }

  /**
   * The skill tree file matters only when the tree is asked for and the keywords found
   * nothing: otherwise any two files give the same record.
   */
  lemma TreeFileIrrelevant(job: seq<(string, Json)>, useSkillTree: bool, x: Extracted, other: Option<Json>)
    requires IsScalar(Get(job, "title", Str("")))
    requires !useSkillTree || x.keywordSkills != ""
    ensures ConvertJob(job, useSkillTree, x) == ConvertJob(job, useSkillTree, x.(treeFile := other))
  {
  }

  /** Without a truthy id, the tree cannot fill in the skills. */
  lemma NoIdNoTreeSkills(job: seq<(string, Json)>, x: Extracted)
    requires !Truthy(Get(job, "id", Null))
    ensures SkillsRequired(job, true, x) == x.keywordSkills
  {
  }
}
