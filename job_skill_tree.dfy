/**
 * The deterministic parts of `JobSkillTreeGenerator` (job_skill_tree.py): the keyword
 * fallback that stands in for the model's analysis, the stripping of Markdown code
 * fences from the model's answer, the metadata added to each built tree, the file-name
 * sanitiser, and the batch loop with its limit and its success/failure tally.
 *
 * The HTTP call, `json.loads`, `html.unescape` and the file writes are not modelled:
 * their results are parameters. Python's `\w` is Unicode-aware, so the sanitiser takes
 * the word-character test as a parameter `isWord`.
 */
module JobSkillTree {
  import opened Wrappers
  import opened PyText
  import opened JsonValue
  import opened SkillTreeBuild
  import opened Subsequences

  // ---------------------------------------------------------------------------
  // The keyword fallback
  // ---------------------------------------------------------------------------

  const ProgrammingLanguages: seq<string> :=
    ["Python", "JavaScript", "Java", "C++", "C#", "Go", "Rust", "TypeScript", "SQL", "R", "Swift", "Kotlin"]
  const Frameworks: seq<string> :=
    ["React", "Vue", "Angular", "Django", "Flask", "FastAPI", "Spring", "Node.js", "Express", "TensorFlow", "PyTorch"]
  const Tools: seq<string> :=
    ["Git", "Docker", "Kubernetes", "AWS", "Azure", "GCP", "Jenkins", "CI/CD", "Linux", "MongoDB", "PostgreSQL", "Redis"]

  /** The three categories of `tech_keywords`, in dict order, and their keyword lists. */
  const TechCategories: seq<string> := ["programming_languages", "frameworks", "tools"]
  const TechKeywords: seq<seq<string>> := [ProgrammingLanguages, Frameworks, Tools]

  /** The lower-cased keyword occurs in the lower-cased description. */
  predicate Mentions(descLower: string, keyword: string) {
    Contains(descLower, Lower(keyword))
  }

  /** The keywords of one list that the description mentions, in list order. */
  function Found(descLower: string, keywords: seq<string>): seq<string> {
    if keywords == [] then []
    else
      var last := keywords[|keywords| - 1];
      Found(descLower, keywords[..|keywords| - 1]) + (if Mentions(descLower, last) then [last] else [])
  }

  /** Looking at one more keyword appends it when the description mentions it. */
  lemma FoundStep(descLower: string, keywords: seq<string>, j: nat)
    requires j < |keywords|
    ensures Found(descLower, keywords[..j + 1])
            == Found(descLower, keywords[..j]) + (if Mentions(descLower, keywords[j]) then [keywords[j]] else [])
  {
    assert keywords[..j + 1][..j] == keywords[..j];
  }

  /** Each found list is a subsequence of its keyword list: exactly the mentioned keywords. */
  lemma {:induction false} FoundSpec(descLower: string, keywords: seq<string>)
    ensures IsSubseq(Found(descLower, keywords), keywords)
    ensures forall w :: w in Found(descLower, keywords) <==> w in keywords && Mentions(descLower, w)
  {
    if keywords != [] {
      var init, last := keywords[..|keywords| - 1], keywords[|keywords| - 1];
      FoundSpec(descLower, init);
      IsSubseqSnoc(Found(descLower, init), init, last, Mentions(descLower, last));
      SnocDropLast(keywords);
    }
  }

  function Strs(words: seq<string>): (r: seq<Json>)
    ensures |r| == |words|
  {
    seq(|words|, i requires 0 <= i < |words| => Str(words[i]))
  }

  /** The record `_fallback_skill_extraction` returns, given the three found lists. */
  function FallbackOf(langs: seq<string>, frameworks: seq<string>, tools: seq<string>): Json {
    Obj([
      ("skills", Obj([
        ("technical", Obj([
          ("programming_languages", Arr(Strs(langs))),
          ("frameworks", Arr(Strs(frameworks))),
          ("tools", Arr(Strs(tools)))])),
        ("soft_skills", Arr([])),
        ("domains", Arr([])),
        ("certifications", Arr([])),
        ("education", Arr([])),
        ("experience_requirements", Arr([]))])),
      ("required_vs_preferred", Obj([("required", Arr([])), ("preferred", Arr([]))]))])
  }

  /** What `_fallback_skill_extraction` returns for a (cleaned) description. */
  function FallbackRecord(description: string): Json {
    var d := Lower(description);
    FallbackOf(Found(d, ProgrammingLanguages), Found(d, Frameworks), Found(d, Tools))
  }

  /**
   * `_fallback_skill_extraction`: one pass over each keyword list, appending the
   * mentioned keywords to that category's list. The job title is not used.
   */
  method FallbackSkillExtraction(jobTitle: Json, description: string) returns (r: Json)
    ensures r == FallbackRecord(description)
  {
    var d := Lower(description);
    var found: seq<seq<string>> := [[], [], []];
    var c := 0;
    while c < |TechKeywords|
      invariant 0 <= c <= |TechKeywords| && |found| == |TechKeywords|
      invariant forall k | 0 <= k < c :: found[k] == Found(d, TechKeywords[k])
      invariant forall k | c <= k < |found| :: found[k] == []
    {
      var keywords := TechKeywords[c];
      var j := 0;
      while j < |keywords|
        invariant 0 <= j <= |keywords| && |found| == |TechKeywords|
        invariant forall k | 0 <= k < c :: found[k] == Found(d, TechKeywords[k])
        invariant forall k | c < k < |found| :: found[k] == []
        invariant found[c] == Found(d, keywords[..j])
      {
        FoundStep(d, keywords, j);
        if Mentions(d, keywords[j]) {
          found := found[c := found[c] + [keywords[j]]];
        }
        j := j + 1;
      }
      assert keywords[..j] == keywords;
      c := c + 1;
    }
    r := FallbackOf(found[0], found[1], found[2]);
  }

  /** The fallback record is one `build_skill_tree` accepts. */
  lemma FallbackWellShaped(description: string)
    ensures WellShaped(FallbackRecord(description))
  {
    var d := Lower(description);
    var langs, fws, tools := Found(d, ProgrammingLanguages), Found(d, Frameworks), Found(d, Tools);
    var tech := [("programming_languages", Arr(Strs(langs))), ("frameworks", Arr(Strs(fws))), ("tools", Arr(Strs(tools)))];
    assert CategoriesIterable(tech);
    var skills := SkillsOf(FallbackRecord(description));
    assert Lookup(skills, "technical") == Some(Obj(tech));
    forall b | 0 <= b < |Buckets|
      ensures IterableWhenTruthy(Get(skills, Buckets[b].key, Null))
    {
      BucketsEmptyInFallback(skills, b);
    }
  }

  /** Every list-valued bucket of the fallback record is absent or empty. */
  lemma BucketsEmptyInFallback(skills: seq<(string, Json)>, b: nat)
    requires |skills| == 6 && skills[0].0 == "technical"
    requires forall i | 1 <= i < 6 :: skills[i].1 == Arr([])
    requires b < |Buckets|
    ensures !Truthy(Get(skills, Buckets[b].key, Null))
  {
    var k := Buckets[b].key;
    if k in Keys(skills) {
      var i := IndexOf(skills, k);
      assert i != 0;
    }
  }

  // ---------------------------------------------------------------------------
  // Code-fence stripping
  // ---------------------------------------------------------------------------

  /** A line that, stripped, opens or closes a code fence. */
  predicate IsFenceLine(line: string) {
    StartsWith(Strip(line), "```")
  }

  /** The lines that are not fence lines, in their order. */
  function KeepLines(lines: seq<string>): (r: seq<string>)
    ensures |r| <= |lines|
  {
    if lines == [] then []
    else
      var last := lines[|lines| - 1];
      KeepLines(lines[..|lines| - 1]) + (if IsFenceLine(last) then [] else [last])
  }

  /** The kept lines keep their original order. */
  lemma {:induction false} KeepLinesOrder(lines: seq<string>)
    ensures IsSubseq(KeepLines(lines), lines)
  {
    if lines != [] {
      var init, last := lines[..|lines| - 1], lines[|lines| - 1];
      var keep := !IsFenceLine(last);
      KeepLinesOrder(init);
      IsSubseqSnoc(KeepLines(init), init, last, keep);
      SnocDropLast(lines);
      assert KeepLines(lines) == KeepLines(init) + (if keep then [last] else []);
    }
  }

  /** The kept lines are exactly the lines that are not fence lines. */
  lemma {:induction false} KeepLinesMembers(lines: seq<string>)
    ensures forall l :: l in KeepLines(lines) <==> l in lines && !IsFenceLine(l)
    ensures forall l :: multiset(KeepLines(lines))[l] == if IsFenceLine(l) then 0 else multiset(lines)[l]
  {
    if lines != [] {
      var init, last := lines[..|lines| - 1], lines[|lines| - 1];
      KeepLinesMembers(init);
      SnocDropLast(lines);
      assert multiset(lines) == multiset(init) + multiset{last};
    }
  }

  /** What `analyze_job_with_xai` hands to `json.loads`. */
  function StripFences(content: string): string {
    var c := Strip(content);
    if StartsWith(c, "```") then Join(KeepLines(Split(c, '\n')), "\n") else c
  }

  /** Content that does not open with a fence is only stripped of surrounding whitespace. */
  lemma StripFencesUnfenced(content: string)
    requires !StartsWith(Strip(content), "```")
    ensures StripFences(content) == Strip(content)
  {
  }

  /**
   * Fenced content: the lines of the result are the content's non-fence lines, in order,
   * whenever one is left; otherwise the result is empty.
   */
  lemma StripFencesLines(content: string)
    requires StartsWith(Strip(content), "```")
    ensures var kept := KeepLines(Split(Strip(content), '\n'));
            if kept == [] then StripFences(content) == ""
            else Split(StripFences(content), '\n') == kept
  {
    var lines := Split(Strip(content), '\n');
    var kept := KeepLines(lines);
    if kept != [] {
      SplitPiecesHaveNoSeparator(Strip(content), '\n');
      KeepLinesMembers(lines);
      forall i | 0 <= i < |kept|
        ensures '\n' !in kept[i]
      {
        assert kept[i] in lines;
      }
      SplitJoin(kept, '\n');
    }
  }

  /** No line of the stripped answer is a fence line. */
  lemma StripFencesNoFence(content: string)
    requires StartsWith(Strip(content), "```")
    ensures forall l :: l in Split(StripFences(content), '\n') ==> !IsFenceLine(l)
  {
    var kept := KeepLines(Split(Strip(content), '\n'));
    StripFencesLines(content);
    KeepLinesMembers(Split(Strip(content), '\n'));
    if kept == [] {
      assert Split("", '\n') == [""];
      assert !IsFenceLine("");
    }
  }

  /** No piece of a split contains the separator. */
  lemma {:induction false} SplitPiecesHaveNoSeparator(s: string, sep: char)
    ensures forall i | 0 <= i < |Split(s, sep)| :: sep !in Split(s, sep)[i]
  {
    if s != [] {
      SplitPiecesHaveNoSeparator(s[1..], sep);
    }
  }

  /**
   * `analyze_job_with_xai` after the request: `response` is the message content the
   * API returned (`None` when the request or the response shape failed) and `parse` is
   * `json.loads` (`None` on a decode error). Every failure falls back to the keywords.
   */
  function Analyze(response: Option<string>, parse: string -> Option<Json>, cleanDescription: string): (r: Json)
    ensures response.None? || parse(StripFences(response.value)).None? ==> r == FallbackRecord(cleanDescription)
    ensures response.Some? && parse(StripFences(response.value)).Some? ==> r == parse(StripFences(response.value)).value
  {
    match response
    case None => FallbackRecord(cleanDescription)
    case Some(content) =>
      match parse(StripFences(content))
      case None => FallbackRecord(cleanDescription)
      case Some(data) => data
  }

  // ---------------------------------------------------------------------------
  // File names
  // ---------------------------------------------------------------------------

  predicate IsRunChar(c: char) { c == '-' || IsSpace(c) }

  /** Drops every character that is neither a word character, whitespace nor a hyphen. */
  function DropSpecials(s: string, isWord: char -> bool): (r: string)
    ensures forall i | 0 <= i < |r| :: isWord(r[i]) || IsRunChar(r[i])
  {
    if s == [] then []
    else
      var last := s[|s| - 1];
      DropSpecials(s[..|s| - 1], isWord) + (if isWord(last) || IsRunChar(last) then [last] else [])
  }

  /** The kept characters are exactly the word, whitespace and hyphen characters, in order. */
  lemma {:induction false} DropSpecialsSpec(s: string, isWord: char -> bool)
    ensures IsSubseq(DropSpecials(s, isWord), s)
    ensures forall c :: c in DropSpecials(s, isWord) <==> c in s && (isWord(c) || IsRunChar(c))
    ensures forall c :: multiset(DropSpecials(s, isWord))[c]
                        == if isWord(c) || IsRunChar(c) then multiset(s)[c] else 0
  {
    if s != [] {
      var init, last := s[..|s| - 1], s[|s| - 1];
      DropSpecialsSpec(init, isWord);
      IsSubseqSnoc(DropSpecials(init, isWord), init, last, isWord(last) || IsRunChar(last));
      SnocDropLast(s);
      assert multiset(s) == multiset(init) + multiset{last};
    }
  }

  /** Each maximal run of hyphens and whitespace becomes one underscore. */
  function CollapseRuns(s: string, inRun: bool): string {
    if s == [] then []
    else if IsRunChar(s[0]) then (if inRun then [] else "_") + CollapseRuns(s[1..], true)
    else [s[0]] + CollapseRuns(s[1..], false)
  }

  /** Every character is `_` or a word character that is neither `-` nor whitespace. */
  predicate SafeChars(s: string, isWord: char -> bool) {
    forall i | 0 <= i < |s| :: s[i] == '_' || (isWord(s[i]) && !IsRunChar(s[i]))
  }

  /** Collapsing the runs leaves no `-` and no whitespace behind. */
  lemma {:induction false} CollapseRunsSafe(s: string, inRun: bool, isWord: char -> bool)
    requires forall i | 0 <= i < |s| :: s[i] == '_' || isWord(s[i]) || IsRunChar(s[i])
    ensures SafeChars(CollapseRuns(s, inRun), isWord)
  {
    if s != [] {
      CollapseRunsSafe(s[1..], IsRunChar(s[0]), isWord);
    }
  }

  /** The `safe_title` of `generate_skill_tree_for_job`. */
  function SafeTitle(title: string, isWord: char -> bool): string {
    CollapseRuns(ReplaceChar(Strip(DropSpecials(title, isWord)), ' ', '_'), false)
  }

  /** Stripping and turning spaces into `_` keeps every character a word, run or `_` character. */
  lemma StripUnderscoreChars(s: string, isWord: char -> bool)
    requires forall i | 0 <= i < |s| :: isWord(s[i]) || IsRunChar(s[i])
    ensures var r := ReplaceChar(Strip(s), ' ', '_');
            forall i | 0 <= i < |r| :: r[i] == '_' || isWord(r[i]) || IsRunChar(r[i])
  {
    var l := LStrip(s);
    var t := RStrip(l);
    var r := ReplaceChar(t, ' ', '_');
    forall i | 0 <= i < |r|
      ensures r[i] == '_' || isWord(r[i]) || IsRunChar(r[i])
    {
      assert t[i] == l[i];
      assert l[i] == s[|s| - |l| + i];
    }
  }

  /** A safe title has no `-`, no whitespace, and only word characters and `_`. */
  lemma SafeTitleChars(title: string, isWord: char -> bool)
    ensures SafeChars(SafeTitle(title, isWord), isWord)
  {
    var s1 := DropSpecials(title, isWord);
    StripUnderscoreChars(s1, isWord);
    CollapseRunsSafe(ReplaceChar(Strip(s1), ' ', '_'), false, isWord);
  }

  /** Text without runs to collapse comes through `CollapseRuns` unchanged. */
  lemma {:induction false} CollapseRunsNoRuns(s: string, inRun: bool)
    requires forall i | 0 <= i < |s| :: !IsRunChar(s[i])
    ensures CollapseRuns(s, inRun) == s
  {
    if s != [] {
      CollapseRunsNoRuns(s[1..], false);
    }
  }

  /** Text made of word characters comes through `DropSpecials` unchanged. */
  lemma {:induction false} DropSpecialsKeepsWords(s: string, isWord: char -> bool)
    requires forall i | 0 <= i < |s| :: isWord(s[i])
    ensures DropSpecials(s, isWord) == s
  {
    if s != [] {
      DropSpecialsKeepsWords(s[..|s| - 1], isWord);
      SnocDropLast(s);
    }
  }

  /** Text without whitespace comes through `Strip` unchanged. */
  lemma NoSpaceStrip(s: string)
    requires forall i | 0 <= i < |s| :: !IsSpace(s[i])
    ensures Strip(s) == s
  {
    assert LStrip(s) == s;
    assert RStrip(s) == s;
  }

  /** Sanitising a sanitised title changes nothing (`_` is a word character in Python). */
  lemma SafeTitleIdempotent(title: string, isWord: char -> bool)
    requires isWord('_')
    ensures SafeTitle(SafeTitle(title, isWord), isWord) == SafeTitle(title, isWord)
  {
    var t := SafeTitle(title, isWord);
    SafeTitleChars(title, isWord);
    assert forall i | 0 <= i < |t| :: isWord(t[i]) && !IsRunChar(t[i]);
    DropSpecialsKeepsWords(t, isWord);
    NoSpaceStrip(t);
    NoSpaceReplace(t);
    CollapseRunsNoRuns(t, false);
  }

  /** Text without a space comes through replacing spaces unchanged. */
  lemma NoSpaceReplace(s: string)
    requires forall i | 0 <= i < |s| :: !IsRunChar(s[i])
    ensures ReplaceChar(s, ' ', '_') == s
  {
    var r := ReplaceChar(s, ' ', '_');
    forall i | 0 <= i < |s|
      ensures r[i] == s[i]
    {
      assert !IsRunChar(s[i]);
    }
  }

  /** The name of the saved tree: the id and safe title between the fixed prefix and suffix. */
  function TreeFileName(jobId: Json, safeTitle: string): string
    requires IsScalar(jobId)
  {
    "job_" + Show(jobId) + "_" + safeTitle + "_skill_tree.json"
  }

  /** The name of the saved page, built like the tree's name with the page suffix. */
  function HtmlFileName(jobId: Json, safeTitle: string): string
    requires IsScalar(jobId)
  {
    "job_" + Show(jobId) + "_" + safeTitle + "_skill_tree.html"
  }

  // ---------------------------------------------------------------------------
  // One job
  // ---------------------------------------------------------------------------

  /** The tree with the job's id, title and location written into it, in that order. */
  function AddMetadata(tree: seq<(string, Json)>, job: seq<(string, Json)>): (r: seq<(string, Json)>)
    ensures Lookup(r, "job_id") == Some(Get(job, "id", Str("unknown")))
    ensures Lookup(r, "job_title") == Some(Get(job, "title", Str("Unknown Position")))
    ensures Lookup(r, "location") == Some(Get(job, "location", Str("Not specified")))
    ensures forall k | k != "job_id" && k != "job_title" && k != "location" :: Lookup(r, k) == Lookup(tree, k)
  {
    var t1 := Put(tree, "job_id", Get(job, "id", Str("unknown")));
    var t2 := Put(t1, "job_title", Get(job, "title", Str("Unknown Position")));
    Put(t2, "location", Get(job, "location", Str("Not specified")))
  }

  /** The external results one job's run depends on. */
  datatype JobInputs = JobInputs(
    hasApiKey: bool,               // whether `self.api_key` is truthy
    response: Option<string>,      // the API's message content, `None` on any request failure
    cleanDescription: string)      // clean_job_description(description)

  /** How `generate_skill_tree_for_job` ends. */
  datatype Outcome =
    | NoDescription                            // returns None
    | Raised                                   // raises
    | Built(tree: Json, safeTitle: string)     // returns the tree, saved under the safe title

  /** `generate_skill_tree_for_job` on a dict `job`. */
  function GenerateForJob(job: seq<(string, Json)>, inputs: JobInputs, parse: string -> Option<Json>,
                          isWord: char -> bool): Outcome
  {
    var description := Get(job, "description", Str(""));
    if !Truthy(description) then NoDescription
    else if !description.Str? then Raised  // clean_job_description raises on it, in either branch
    else
      var data := if inputs.hasApiKey then Analyze(inputs.response, parse, inputs.cleanDescription)
                  else FallbackRecord(inputs.cleanDescription);
      if !WellShaped(data) then Raised
      else
        var tree := AddMetadata(SkillTree(data).fields, job);
        match Get(job, "title", Str("Unknown Position"))
        case Str(title) => Built(Obj(tree), SafeTitle(title, isWord))
        case _ => Raised
  }

  /** A truthy description that is not a string makes the job raise, with or without an API key. */
  lemma NonStringDescriptionRaises(job: seq<(string, Json)>, inputs: JobInputs, parse: string -> Option<Json>,
                                   isWord: char -> bool)
    requires var d := Get(job, "description", Str("")); Truthy(d) && !d.Str?
    ensures GenerateForJob(job, inputs, parse, isWord) == Raised
  {
  }

  /** An empty description stops the job before any tree is built. */
  lemma NoDescriptionNoTree(job: seq<(string, Json)>, inputs: JobInputs, parse: string -> Option<Json>,
                            isWord: char -> bool)
    requires !Truthy(Get(job, "description", Str("")))
    ensures GenerateForJob(job, inputs, parse, isWord) == NoDescription
  {
  }

  /**
   * Without an API key a job with a description and a string title always gets a tree:
   * the fallback record is well shaped.
   */
  lemma FallbackAlwaysBuilds(job: seq<(string, Json)>, inputs: JobInputs, parse: string -> Option<Json>,
                             isWord: char -> bool)
    requires !inputs.hasApiKey
    requires var d := Get(job, "description", Str("")); d.Str? && d.s != ""
    requires Get(job, "title", Str("Unknown Position")).Str?
    ensures GenerateForJob(job, inputs, parse, isWord).Built?
  {
    FallbackWellShaped(inputs.cleanDescription);
  }

  /**
   * The saved tree is the built skill tree, still named "Skills", with `job_id`,
   * `job_title` and `location` holding the job's values or their defaults.
   */
  lemma BuiltTreeMetadata(job: seq<(string, Json)>, inputs: JobInputs, parse: string -> Option<Json>,
                          isWord: char -> bool)
    requires GenerateForJob(job, inputs, parse, isWord).Built?
    ensures var t := GenerateForJob(job, inputs, parse, isWord).tree;
            && t.Obj?
            && Lookup(t.fields, "name") == Some(Str("Skills"))
            && Lookup(t.fields, "job_id") == Some(Get(job, "id", Str("unknown")))
            && Lookup(t.fields, "job_title") == Some(Get(job, "title", Str("Unknown Position")))
            && Lookup(t.fields, "location") == Some(Get(job, "location", Str("Not specified")))
  {
    var data := if inputs.hasApiKey then Analyze(inputs.response, parse, inputs.cleanDescription)
                else FallbackRecord(inputs.cleanDescription);
    assert GenerateForJob(job, inputs, parse, isWord).tree == Obj(AddMetadata(SkillTree(data).fields, job));
    TreeWithMetadata(data, job);
  }

  /** The tree built from a well-shaped record, with the job's metadata added. */
  lemma TreeWithMetadata(data: Json, job: seq<(string, Json)>)
    requires WellShaped(data)
    ensures var r := AddMetadata(SkillTree(data).fields, job);
            && Lookup(r, "name") == Some(Str("Skills"))
            && Lookup(r, "job_id") == Some(Get(job, "id", Str("unknown")))
            && Lookup(r, "job_title") == Some(Get(job, "title", Str("Unknown Position")))
            && Lookup(r, "location") == Some(Get(job, "location", Str("Not specified")))
  {
    RootShape(data);
  }

  // ---------------------------------------------------------------------------
  // The batch
  // ---------------------------------------------------------------------------

  /** Python's `s[:n]`, where a negative `n` counts from the end. */
  function SliceTo<T>(s: seq<T>, n: int): (r: seq<T>)
    ensures |r| <= |s| && r == s[..|r|]
    ensures 0 <= n ==> |r| == if n < |s| then n else |s|
    ensures n < 0 ==> |r| == if |s| + n < 0 then 0 else |s| + n
  {
    if n >= 0 then (if n < |s| then s[..n] else s)
    else if |s| + n < 0 then [] else s[..|s| + n]
  }

  /** The first `limit` jobs when a truthy limit is given, all of them otherwise. */
  function LimitJobs<T>(jobs: seq<T>, limit: Option<int>): (r: seq<T>)
    ensures limit.None? || limit == Some(0) ==> r == jobs
    ensures limit.Some? && limit.value > 0 ==> r == jobs[..if limit.value < |jobs| then limit.value else |jobs|]
  {
    if limit.Some? && limit.value != 0 then SliceTo(jobs, limit.value) else jobs
  }

  /** One job of the batch with the external results its run gets. */
  datatype JobRun = JobRun(job: Json, inputs: JobInputs)

  /** A per-job step: how one dict job with its external results ends. */
  type Step = (seq<(string, Json)>, JobInputs) -> Outcome

  /** The step `generate_skill_trees_for_all_jobs` uses: `generate_skill_tree_for_job`. */
  function Generate(parse: string -> Option<Json>, isWord: char -> bool): Step {
    (job, inputs) => GenerateForJob(job, inputs, parse, isWord)
  }

  /** The tree a job contributes to the batch, if any. */
  function TreeOf(outcome: Outcome): (r: seq<Json>)
    ensures |r| == if outcome.Built? then 1 else 0
  {
    if outcome.Built? then [outcome.tree] else []
  }

  predicate AllDicts(runs: seq<JobRun>) {
    forall k | 0 <= k < |runs| :: runs[k].job.Obj?
  }

  /** The trees the batch collects from `runs`, in order. */
  function BuiltTrees(runs: seq<JobRun>, step: Step): (r: seq<Json>)
    requires AllDicts(runs)
    ensures |r| <= |runs|
  {
    if runs == [] then []
    else
      var last := runs[|runs| - 1];
      BuiltTrees(runs[..|runs| - 1], step) + TreeOf(step(last.job.fields, last.inputs))
  }

  /** The summary `generate_skill_trees_for_all_jobs` saves. */
  datatype Summary = Summary(processed: nat, successful: nat, failed: nat, trees: seq<Json>)

  /**
   * The loop of `generate_skill_trees_for_all_jobs` over the loaded jobs, for the step
   * `Generate(parse, isWord)`. It returns `None` when a job is not a dict: `job.get`
   * raises, and so does the `job.get` in the handler, which ends the run.
   */
  method GenerateAll(runs: seq<JobRun>, limit: Option<int>, step: Step) returns (r: Option<Summary>)
    ensures var todo := LimitJobs(runs, limit);
            && (r.Some? <==> AllDicts(todo))
            && (r.Some? ==>
                  && r.value.processed == |todo|
                  && r.value.successful + r.value.failed == |todo|
                  && r.value.trees == BuiltTrees(todo, step)
                  && r.value.successful == |r.value.trees|)
  {
    var todo := LimitJobs(runs, limit);
    var trees: seq<Json> := [];
    var successful, failed := 0, 0;
    var i := 0;
    while i < |todo|
      invariant 0 <= i <= |todo|
      invariant AllDicts(todo[..i])
      invariant trees == BuiltTrees(todo[..i], step)
      invariant successful == |trees| && successful + failed == i
    {
      if !todo[i].job.Obj? {
        assert !AllDicts(todo);
        return None;
      }
      assert todo[..i + 1][..i] == todo[..i];
      var outcome := step(todo[i].job.fields, todo[i].inputs);
      if outcome.Built? {
        trees := trees + [outcome.tree];
        successful := successful + 1;
      } else {
        failed := failed + 1;
      }
      i := i + 1;
    }
    assert todo[..i] == todo;
    r := Some(Summary(|todo|, successful, failed, trees));
  }

  /**
   * Without an API key every dict job whose description is a non-empty string and whose
   * title is a string is counted as successful.
   */
  lemma {:induction false} FallbackBatchAllSucceed(runs: seq<JobRun>, parse: string -> Option<Json>,
                                                   isWord: char -> bool)
    requires AllDicts(runs)
    requires forall k | 0 <= k < |runs| :: !runs[k].inputs.hasApiKey
    requires forall k | 0 <= k < |runs| :: Get(runs[k].job.fields, "description", Str("")).Str?
    requires forall k | 0 <= k < |runs| :: Get(runs[k].job.fields, "description", Str("")).s != ""
    requires forall k | 0 <= k < |runs| :: Get(runs[k].job.fields, "title", Str("Unknown Position")).Str?
    ensures |BuiltTrees(runs, Generate(parse, isWord))| == |runs|
  {
    if runs != [] {
      var last := runs[|runs| - 1];
      FallbackBatchAllSucceed(runs[..|runs| - 1], parse, isWord);
      FallbackAlwaysBuilds(last.job.fields, last.inputs, parse, isWord);
    }
  }
}
