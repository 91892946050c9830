# xAI skill-tree generator: a Dafny model

This project models the deterministic core of a small pipeline of Python scripts:

- One script fetches job postings from a Greenhouse job board.
- One asks an AI service, or a keyword fallback, for the skills each posting requires.
- The skills are turned into a hierarchical skill tree, saved as JSON.
- The tree is rendered as an interactive D3 page.
- Job records are converted to an API format, reusing the trees' skills.
- Application URLs are backfilled into trees saved earlier.

The scripts' control flow, data shapes and classifiers are modelled here. HTTP, file I/O, the clock, the AI prompt, regular-expression salary and skill parsing, HTML cleaning, date arithmetic and the HTML/D3 page are not: their results enter as parameters, as "## Left out" lists. The model works on JSON values as Python sees them after `json.load`. A dict is an ordered list of entries, as Python dicts keep insertion order. Where the Python code raises, the model returns `None`, or takes the condition as a precondition when no caller reaches that case.

Modules, one per concern:

| module | file | models |
|---|---|---|
| `Wrappers` | wrappers.dfy | the `Option` type |
| `PyText` | pytext.dfy | the `str` operations the scripts use |
| `JsonValue` | json_value.dfy | JSON values, dict lookup and assignment, truthiness, iteration |
| `Subsequences` | seqs.dfy | generic sequence facts |
| `SkillTreeBuild` | skill_tree.dfy | `build_skill_tree` (skill_tree_common.py) |
| `SkillTreeView` | tree_view.dfy | the page's expand/collapse state: the class `TreeView`, plus the node class, colour and radius selectors |
| `SkillCollector` | skill_collector.dfy | the recursive skill walk of `_extract_skills_from_skill_tree` (convert_fetched_jobs_to_api_format.py) |
| `JobConvert` | job_converter.dfy | the location, experience and employment classifiers and `convert_job` |
| `JobSkillTree` | job_skill_tree.dfy | the keyword fallback, the code-fence stripper, the file-name sanitiser, the per-job metadata and the batch loop (job_skill_tree.py) |
| `UrlBackfill` | url_backfill.dfy | the file-name id scanner, the jobs map, the tree update and the batch tally (add_urls_to_skill_trees.py); the directory of tree files is the class `SkillTreeDir` |
| `JobFetcher` | job_fetcher.dfy | `parse_job`, the search filter of `fetch_jobs` and the saved envelope (fetch_jobs.py) |
| `Pipeline` | pipeline.dfy | properties across scripts: the collector on a tree the builder made, and the id in a saved tree's file name |

Loops in the source are methods with loop invariants, each proved equal to a recursive specification function:

- `BuildSkillTree`, `FallbackSkillExtraction`, `CollectSkills`/`CollectChildren`, `ParseJob`/`AddDetails`, `FetchJobs`, `LoadJobsMapping`, `GenerateAll`;
- the `TreeView` and `SkillTreeDir` methods.

The properties the source promises are lemmas about those specification functions.

Behaviours of the code that the model follows and states:

- `build_skill_tree` is not total. It raises when "skills" or "technical" is not a dict, or when a truthy bucket cannot be iterated (`SkillTreeBuild.WellShaped`).
- A truthy bucket that is a string is iterated character by character.
- `expandAll` only expands nodes that are drawn when it is called, so it does not restore every hidden subtree (`SkillTreeView.InitExpandAllVisible`).
- Unparsable AI output falls back to keyword extraction (`JobSkillTree.Analyze`).
- There are six top-level branches, in a fixed order (`SkillTreeBuild.BranchOrder`).
- The 20-name truncation happens inside `_extract_skills_from_skill_tree`.
- A job's `job_id` defaults to the string "unknown".

## Model

| member | source | states |
|---|---|---|
| JsonValue.Lookup | skill_tree_common.py:26 | A key is found in a dict exactly when it is one of the dict's keys. |
| JsonValue.Put | job_skill_tree.py:200-202 | Assigning to a present key overwrites it in place and keeps the key order; a new key is appended. The key then reads the new value and every other key reads what it read before. |
| JsonValue.PutSame | add_urls_to_skill_trees.py:76-82 | Writing back the value a key already holds leaves the dict equal to what it was. |
| JsonValue.Iterate | skill_tree_common.py:34-37 | A `for` loop runs over a list, a string or a dict and raises on anything else; it visits something exactly when the value is truthy. |
| JsonValue.Record | convert_fetched_jobs_to_api_format.py:275-289 | A dict literal has exactly the written keys, in the written order. |
| JsonValue.LookupRecord | fetch_jobs.py:157-162 | A key of a dict literal written once reads the value written with it. |
| PyText.Strip | job_skill_tree.py:117 | `strip()` gives the piece of the text left after removing the leading and trailing whitespace and nothing else: it neither starts nor ends with whitespace, and everything outside it is whitespace. |
| PyText.JoinSplit | job_skill_tree.py:120-121 | Joining the pieces of a split with the same separator gives back the text. |
| PyText.SplitJoin | job_skill_tree.py:120-121 | Splitting a join of separator-free pieces gives back the pieces. |
| PyText.TitleFromIdempotent | skill_tree_common.py:36 | Title-casing a title-cased text changes nothing. |
| PyText.DigitsValueOfNatToString | add_urls_to_skill_trees.py:16 | Reading back the decimal text of a natural number gives the number. |
| SkillTreeBuild.BuildSkillTree | skill_tree_common.py:10-84 | The loops that append category nodes and branches build exactly the specified tree: root "Skills", then the present branches in the fixed order. |
| SkillTreeBuild.AddBucketBranch | skill_tree_common.py:45-82 | One bucket block appends its branch when the bucket is truthy and nothing otherwise. |
| SkillTreeBuild.Leaves | skill_tree_common.py:37 | A leaf list has one leaf per entry. |
| SkillTreeBuild.RootShape | skill_tree_common.py:20-23 | The root is a dict with exactly the keys "name" and "children", named "Skills", with no "type". |
| SkillTreeBuild.EmptyRecordEmptyTree | skill_tree_common.py:20-45 | With no "skills" key, or an empty one, the tree is the root with no children. |
| SkillTreeBuild.CategoryNodesEmpty | skill_tree_common.py:33-42 | No technical category node is built exactly when no category is truthy, so "Technical Skills" is added only when a category survives. |
| SkillTreeBuild.CategoryNodeNames | skill_tree_common.py:33-39 | The category nodes are named by the title-cased keys of the truthy categories, in dict order. |
| SkillTreeBuild.CategoryNodeLeaves | skill_tree_common.py:33-38 | A truthy category gives a node, under its title-cased key, holding one `skill` leaf per entry in order. |
| SkillTreeBuild.BranchAtNames | skill_tree_common.py:41-82 | Each possible branch is built, under its fixed title, exactly when its source is present. |
| SkillTreeBuild.BranchesUpToNames | skill_tree_common.py:25-82 | The first n branch positions give the titles of the present branches among them, in order. |
| SkillTreeBuild.BranchOrder | skill_tree_common.py:25-82 | The root's children are named by exactly the present branches, in the fixed order: Technical Skills, Soft Skills, Domain Expertise, Certifications, Education & Qualifications, Experience Requirements. |
| SkillTreeBuild.ProgrammingLanguagesTitle | skill_tree_common.py:36 | The key "programming_languages" becomes "Programming Languages". |
| SkillTreeBuild.TwoWordTitle | skill_tree_common.py:36 | Title-casing two lower-case words joined by a space title-cases each word on its own. |
| SkillTreeBuild.CategoryTitleClean | skill_tree_common.py:36 | A category title has no underscore left, and title-casing it again changes nothing. |
| SkillTreeBuild.BucketLeaves | skill_tree_common.py:45-82 | A truthy bucket gives one branch under its fixed title, with one leaf per entry in order. Each leaf has exactly the keys "name" and "type", holds the entry, and has the bucket's kind. |
| SkillTreeBuild.EducationIsQualification | skill_tree_common.py:69-74 | A truthy "education" bucket gives one of the root's children: "Education & Qualifications", whose leaves are the education entries in order, each with type "qualification". |
| SkillTreeView.TreeView.Init | skill_tree_common.py:244-251 | The page's state starts as the `init` pass over the hierarchy leaves it, and the state invariant holds. `InitVisible` and `InitOk` say what that state is. |
| SkillTreeView.TreeView.Descendants | skill_tree_common.py:379 | The list of drawn nodes holds exactly the drawn nodes, each once, in increasing id order. |
| SkillTreeView.TreeView.Click | skill_tree_common.py:276-284 | The new state is the click function of the old one, and the invariant is kept. The click function hides shown children and keeps them in the hidden slot; otherwise it shows the hidden slot and leaves the hidden slot as it was. |
| SkillTreeView.TreeView.ExpandAll | skill_tree_common.py:378-386 | Every drawn node with a hidden array shows it and clears the hidden slot; no other node changes, and the invariant is kept. |
| SkillTreeView.TreeView.ExpandEach | skill_tree_common.py:379-384 | The loop over the given nodes, in order, gives the state the specification function describes. |
| SkillTreeView.TreeView.CollapseAll | skill_tree_common.py:388-396 | Every drawn node deeper than 1 that shows children hides them; no other node changes, and the invariant is kept. |
| SkillTreeView.TreeView.CollapseEach | skill_tree_common.py:389-394 | The loop over the given nodes, in order, gives the state the specification function describes. |
| SkillTreeView.VisibleUpToSpec | skill_tree_common.py:379 | The drawn nodes below n, listed in id order, are exactly the drawn ones, each once and increasing. |
| SkillTreeView.ExpandOverVisible | skill_tree_common.py:379-384 | Visiting exactly the drawn nodes in the `expandAll` loop is `expandAll`. |
| SkillTreeView.CollapseOverVisible | skill_tree_common.py:389-394 | Visiting exactly the drawn nodes in the `collapseAll` loop is `collapseAll`. |
| SkillTreeView.InitOk | skill_tree_common.py:247-251 | After `init`, every slot is empty or holds the node's original children, and every internal node has them in one of its two slots. |
| SkillTreeView.ClickOk | skill_tree_common.py:276-284 | A click keeps that invariant, so a collapsed node never loses its subtree. |
| SkillTreeView.ExpandAllOk | skill_tree_common.py:378-384 | `expandAll` keeps the invariant. |
| SkillTreeView.CollapseAllOk | skill_tree_common.py:388-394 | `collapseAll` keeps the invariant. |
| SkillTreeView.ClickTwice | skill_tree_common.py:276-284 | Two clicks on a node give back what is shown. The node's hidden slot then holds its original children, or nothing for a leaf. |
| SkillTreeView.InitVisible | skill_tree_common.py:247-251 | After `init`, a node is drawn exactly when its depth is at most 3. |
| SkillTreeView.InitExpandAllVisible | skill_tree_common.py:378-384 | Right after `init`, `expandAll` draws exactly the nodes of depth at most 4, not the whole tree. |
| SkillTreeView.CollapseAllVisible | skill_tree_common.py:388-394 | After `collapseAll`, the drawn nodes are those drawn before at depth at most 2. |
| SkillTreeView.ExpandAllKeepsVisible | skill_tree_common.py:378-384 | `expandAll` hides nothing that was drawn. |
| SkillTreeView.ExpandAllShowsChildren | skill_tree_common.py:378-384 | After `expandAll`, every drawn internal node shows its children and has an empty hidden slot. |
| SkillTreeView.NodeClass | skill_tree_common.py:268-274 | The class is "node node--internal" exactly when the node shows children. Otherwise a certification, qualification or requirement node gets "node node--" followed by its type, and any other node "node node--leaf". |
| SkillTreeView.NodeFill | skill_tree_common.py:298-304 | The root is "#667eea". Below it, certification, qualification and requirement nodes are "#FF9800", "#2196F3" and "#F44336"; any other node is "#764ba2" when it shows children and "#4CAF50" otherwise. |
| SkillTreeView.Radius | skill_tree_common.py:297 | The radius is 15 exactly at depth 0, 12 exactly at depth 1, and 8 exactly from depth 2 on. |
| SkillTreeView.RadiusNonIncreasing | skill_tree_common.py:297 | A deeper node never has a larger radius. |
| SkillTreeView.LeafClassStable | skill_tree_common.py:268-284 | Clicking a leaf does not change its class; a certification leaf is "node node--certification". |
| SkillCollector.Preorder | convert_fetched_jobs_to_api_format.py:313-319 | The walk visits the node itself first. |
| SkillCollector.SkillEntriesOne | convert_fetched_jobs_to_api_format.py:314-316 | A visited value contributes its "name", defaulting to "", exactly when it is a dict whose "type" is "skill". |
| SkillCollector.SkillEntriesConcat | convert_fetched_jobs_to_api_format.py:313-319 | The names collected over two runs of visited values are those of the first run, then those of the second. |
| SkillCollector.CollectSkills | convert_fetched_jobs_to_api_format.py:313-319 | The recursive walk gets through exactly when every visited "children" can be iterated. It then appends the names of the skill nodes in pre-order. |
| SkillCollector.CollectChildren | convert_fetched_jobs_to_api_format.py:317-319 | The loop over a children list walks each child in order and appends their names in pre-order. |
| SkillCollector.PreorderChildren | convert_fetched_jobs_to_api_format.py:317-319 | A node's list children are visited left to right after the node: those before a child, the child's subtree, then those after it. |
| SkillCollector.WalkableFromChildren | convert_fetched_jobs_to_api_format.py:317-319 | A node with list children is visited before its children's pre-orders, and its walk succeeds exactly when every child's walk does. |
| SkillCollector.WalkableLeaf | convert_fetched_jobs_to_api_format.py:314-318 | A value without list children is visited alone; its walk succeeds exactly when its "children", if any, can be iterated. |
| SkillCollector.WalkableIff | convert_fetched_jobs_to_api_format.py:313-319 | The walk raises exactly when some visited dict has a "children" value that cannot be iterated. |
| SkillCollector.Take20 | convert_fetched_jobs_to_api_format.py:322 | At most the first 20 names are kept, all of them when there are fewer. |
| SkillCollector.Texts | convert_fetched_jobs_to_api_format.py:322 | The texts joined are those of the collected names, one per name and in order. |
| SkillCollector.SkillsFromTree | convert_fetched_jobs_to_api_format.py:295-306 | A falsy id, or no file, gives "". |
| SkillCollector.ExtractSkillsFromSkillTree | convert_fetched_jobs_to_api_format.py:293-326 | The method running the walk returns what the specification gives: the first 20 names joined by ", ", or "" when anything raises. |
| JobConvert.LocationLower | convert_fetched_jobs_to_api_format.py:103 | Lower-casing the location works exactly for a falsy value or a string, and lower-cases the string. |
| JobConvert.HasChar | convert_fetched_jobs_to_api_format.py:118 | The `in` test on the location is defined for a string, a list or a dict; on a string it tests membership. |
| JobConvert.LocationType | convert_fetched_jobs_to_api_format.py:99-122 | The location type is always "hybrid", "remote" or "onsite". |
| JobConvert.LocationRemoteBranchDead | convert_fetched_jobs_to_api_format.py:116-117 | The location-only "remote" test can never succeed once the combined text lacks "remote". |
| JobConvert.LocationTypeCases | convert_fetched_jobs_to_api_format.py:103-122 | The precedence, as if-and-only-ifs. "remote" with hybrid, onsite or in-office words gives hybrid; "remote" alone gives remote; an office word gives onsite. Otherwise a ';' or ',' in the location gives hybrid, and anything else gives onsite. |
| JobConvert.SeveralPlacesIsHybrid | convert_fetched_jobs_to_api_format.py:118-120 | A location with ';' and no keywords is hybrid. |
| JobConvert.ExperienceLevel | convert_fetched_jobs_to_api_format.py:124-147 | The level is one of "senior", "executive", "entry", "mid" and "". |
| JobConvert.ExperienceLevelCases | convert_fetched_jobs_to_api_format.py:129-147 | Each level holds exactly when its word list occurs in the lower-cased title and description and no earlier list does; "" exactly when none does. |
| JobConvert.ExperienceLevelMonotone | convert_fetched_jobs_to_api_format.py:129-147 | Adding text to the description never moves the level down the precedence chain senior > executive > entry > mid > "". |
| JobConvert.SeniorTitle | convert_fetched_jobs_to_api_format.py:129-133 | A title containing "senior" makes the level "senior", whatever the description says. |
| JobConvert.EmploymentType | convert_fetched_jobs_to_api_format.py:191-204 | The type is one of "full-time", "part-time", "contract" and "internship", so it is never empty. |
| JobConvert.EmploymentTypeCases | convert_fetched_jobs_to_api_format.py:193-204 | Each non-default answer holds exactly when its keyword occurs and no earlier one does; full-time wins whenever it is mentioned. |
| JobConvert.ApiJob.ToJson | convert_fetched_jobs_to_api_format.py:275-289 | The API record has exactly the thirteen keys, in the written order. |
| JobConvert.ConvertJob | convert_fetched_jobs_to_api_format.py:206-291 | Conversion fails exactly when cleaning the description raises (a truthy description that is not a string), when reading the salary range raises (a truthy one that is not a string), when classifying the location raises, or when adding 90 days to `updated_at` overflows past year 9999 (an `OverflowError` the handler at line 220 does not catch). |
| JobConvert.CleanDescription | convert_fetched_jobs_to_api_format.py:20-29 | A falsy description cleans to ""; a truthy one cleans only when it is a string. |
| JobConvert.NonStringFieldRaises | convert_fetched_jobs_to_api_format.py:237-244 | A truthy description or salary range that is not a string makes the conversion fail. |
| JobConvert.ConvertJobFields | convert_fetched_jobs_to_api_format.py:262-289 | A converted record has company "xAI" and currency "USD", and its classifier answers are in their ranges. Its description is the cleaned text, or "" for a falsy one. Its expires_at is the computed expiry date. Its title defaults to "Unknown Position" and its location to "Not specified". Its skills are the keyword skills unless the tree was asked for and the keywords found none. |
| JobConvert.TreeFileIrrelevant | convert_fetched_jobs_to_api_format.py:262-266 | The skill tree file makes no difference unless the tree is asked for and the keywords found nothing. |
| JobConvert.NoIdNoTreeSkills | convert_fetched_jobs_to_api_format.py:295-296 | Without a truthy id the tree never fills in the skills. |
| JobFetcher.GetFrom | fetch_jobs.py:87 | `.get` on a value works exactly when the value is a dict. |
| JobFetcher.AddDetails | fetch_jobs.py:99-111 | The details step sets the description and requisition id, then runs the metadata loop. It gives the specified record, or fails when Python raises. |
| JobFetcher.ParseJob | fetch_jobs.py:73-116 | `parse_job` with a given details response returns the specified record, whatever `include_details` says. |
| JobFetcher.BaseRecordKeys | fetch_jobs.py:84-94 | The record starts with exactly the nine keys, in the written order. |
| JobFetcher.BaseRecordNoDescription | fetch_jobs.py:84-97 | The record has no "description" when the details condition is evaluated, so details are requested for every truthy id. |
| JobFetcher.BaseRecordPlaces | fetch_jobs.py:87-88 | The record's location and department are the location's name and the first department's name, with their defaults. |
| JobFetcher.BaseRecordUrl | fetch_jobs.py:91 | "greenhouse_url" is the board's page for the job id. |
| JobFetcher.LocationNameCases | fetch_jobs.py:87 | The location is "Not specified" when the job has no location or the location has no name. It is the name otherwise, and reading it fails for a null location. |
| JobFetcher.FirstNameCases | fetch_jobs.py:88-89 | The department and office are "Not specified" for a missing or empty list, and otherwise the first entry's name or its default. |
| JobFetcher.NoDetailsBaseRecord | fetch_jobs.py:97-99 | Without a truthy id, or without a details response, the record is the base record. |
| JobFetcher.DescriptionOfContent | fetch_jobs.py:101-102 | An empty content gives the description ""; a non-empty content gives its unescaped text. |
| JobFetcher.MetadataOtherKeys | fetch_jobs.py:106-111 | The metadata loop changes no key other than "salary_range" and "employment_type". |
| JobFetcher.MetadataLastSalary | fetch_jobs.py:107-109 | The last "Salary Range" entry wins. |
| JobFetcher.MetadataNoSalary | fetch_jobs.py:107-109 | Without a "Salary Range" entry the salary is left as it was. |
| JobFetcher.MetadataLastEmploymentType | fetch_jobs.py:110-111 | The last "Employment Type" entry wins. |
| JobFetcher.MetadataNoEmploymentType | fetch_jobs.py:110-111 | Without an "Employment Type" entry the employment type is left as it was. |
| JobFetcher.KeptSpec | fetch_jobs.py:136-141 | The search keeps, in the original order, exactly the jobs whose lower-cased title contains the lower-cased term: the result is a subsequence of the jobs, and each matching job occurs in it as often as in the jobs, any other job never. |
| JobFetcher.KeptAllWithoutTerm | fetch_jobs.py:138 | Without a search term every job is kept. |
| JobFetcher.FetchedSucceeds | fetch_jobs.py:136-147 | The loop succeeds exactly when every title can be searched and every kept job parsed. |
| JobFetcher.FetchedRecords | fetch_jobs.py:136-147 | On success the loop returns the parsed record of each kept job, one per job and in order. |
| JobFetcher.FetchJobs | fetch_jobs.py:118-147 | The filtering loop returns what the specification gives. |
| JobFetcher.Envelope | fetch_jobs.py:157-162 | The saved file has exactly the keys fetched_at, total_jobs, board_token and jobs, in that order. |
| JobFetcher.EnvelopeCounts | fetch_jobs.py:157-162 | "total_jobs" is the number of jobs and "jobs" holds them unchanged. |
| JobSkillTree.FoundSpec | job_skill_tree.py:144-148 | Each found list is a subsequence of its keyword list. It holds exactly the keywords whose lower-cased form occurs in the lower-cased description. |
| JobSkillTree.FallbackSkillExtraction | job_skill_tree.py:134-163 | The nested loops return the specified fallback record; the job title plays no part. |
| JobSkillTree.FallbackWellShaped | job_skill_tree.py:150-163 | The fallback record is one the tree builder accepts. |
| JobSkillTree.BucketsEmptyInFallback | job_skill_tree.py:153-157 | Every non-technical bucket of the fallback is empty, so it adds no branch. |
| JobSkillTree.KeepLinesOrder | job_skill_tree.py:121 | The kept lines are a subsequence of the lines. |
| JobSkillTree.KeepLinesMembers | job_skill_tree.py:121 | A line is kept exactly when it is not a fence line, and a repeated non-fence line is kept as often as it occurs. |
| JobSkillTree.StripFencesUnfenced | job_skill_tree.py:117-118 | Content that does not start with a fence is only stripped. |
| JobSkillTree.StripFencesLines | job_skill_tree.py:117-121 | Fenced content becomes its non-fence lines, in order, joined by newlines. |
| JobSkillTree.StripFencesNoFence | job_skill_tree.py:118-121 | After fence stripping no line is a fence line. |
| JobSkillTree.Analyze | job_skill_tree.py:108-132 | A failed request, or an answer that does not decode as JSON once its code fences are stripped, gives the keyword fallback record. Any other result is exactly the decoded answer. |
| JobSkillTree.DropSpecials | job_skill_tree.py:208 | What remains is word characters, hyphens and whitespace. |
| JobSkillTree.DropSpecialsSpec | job_skill_tree.py:208 | The kept characters are a subsequence of the title, a character is kept exactly when it is a word character, a hyphen or whitespace, and each kept character occurs as often as in the title. |
| JobSkillTree.CollapseRunsSafe | job_skill_tree.py:209 | Collapsing the runs leaves no hyphen and no whitespace. |
| JobSkillTree.SafeTitleChars | job_skill_tree.py:208-209 | A safe title has only word characters and underscores: no hyphen and no whitespace. |
| JobSkillTree.SafeTitleIdempotent | job_skill_tree.py:208-209 | Sanitising a sanitised title changes nothing. |
| JobSkillTree.AddMetadata | job_skill_tree.py:200-202 | After the writes, job_id, job_title and location read the job's values or their defaults ("unknown", "Unknown Position", "Not specified"). Every other key reads as before. |
| JobSkillTree.NoDescriptionNoTree | job_skill_tree.py:182-184 | An empty description returns None before any tree is built. |
| JobSkillTree.NonStringDescriptionRaises | job_skill_tree.py:186-193 | A truthy description that is not a string makes the job raise, with or without an API key, since it is cleaned outside any handler. |
| JobSkillTree.FallbackAlwaysBuilds | job_skill_tree.py:187-197 | Without an API key, a job whose description is a non-empty string and whose title is a string always gets a tree. |
| JobSkillTree.BuiltTreeMetadata | job_skill_tree.py:176-202 | A built tree is still named "Skills" and carries the job's id, title and location or their defaults. |
| JobSkillTree.SliceTo | job_skill_tree.py:248 | A Python prefix slice keeps the first n items, or drops the last -n for a negative n. |
| JobSkillTree.LimitJobs | job_skill_tree.py:247-248 | A truthy limit keeps the first `limit` jobs; no limit, or 0, keeps them all. |
| JobSkillTree.GenerateAll | job_skill_tree.py:244-275 | The batch fails exactly when a job is not a dict. Otherwise it processes the limited jobs, and successful + failed is their number. The trees are the built ones, in order. |
| JobSkillTree.FallbackBatchAllSucceed | job_skill_tree.py:257-264 | Without an API key, a batch of jobs with non-empty string descriptions and string titles builds one tree per job. |
| UrlBackfill.DigitRun | add_urls_to_skill_trees.py:14 | The digit run is the longest prefix of decimal digits. |
| UrlBackfill.FirstMatch | add_urls_to_skill_trees.py:14 | The search finds the leftmost match of "job_", digits, "_", or reports that there is none. |
| UrlBackfill.ExtractJobIdOfName | add_urls_to_skill_trees.py:12-17 | The id written into a "job_<id>_" name is the id read back. |
| UrlBackfill.ExtractJobIdNone | add_urls_to_skill_trees.py:14-17 | A name without a match gives None. |
| UrlBackfill.JobsMapDomain | add_urls_to_skill_trees.py:33-36 | The map holds exactly the ids of the jobs with a truthy id. |
| UrlBackfill.JobsMapLastWins | add_urls_to_skill_trees.py:33-40 | A later job with the same id overwrites an earlier one. |
| UrlBackfill.EntryUrl | add_urls_to_skill_trees.py:37 | The URL is application_url when it is truthy; otherwise it is greenhouse_url when present, and "" when not. |
| UrlBackfill.LoadJobsMapping | add_urls_to_skill_trees.py:20-43 | A missing file gives the empty map. Otherwise the loop fails exactly when Python raises, and on success it returns the specified map. |
| UrlBackfill.FillIfMissingEffect | add_urls_to_skill_trees.py:79-82 | A key is filled only when it is falsy in the tree and the new value is truthy; no other key changes. |
| UrlBackfill.UpdateEffect | add_urls_to_skill_trees.py:76-82 | A successful update sets application_url and fills job_title and location only when they are missing. It changes no other key. |
| UrlBackfill.UpdateRefusals | add_urls_to_skill_trees.py:54-73 | No id, an existing URL, or an id not in the map each refuse the update and leave the tree as it was. |
| UrlBackfill.FillKeepsJobId | add_urls_to_skill_trees.py:54-58 | The writes leave job_id, and so the id the update reads, unchanged. |
| UrlBackfill.FillTwice | add_urls_to_skill_trees.py:79-82 | Filling twice is filling once. |
| UrlBackfill.UpdateIdempotent | add_urls_to_skill_trees.py:65-82 | Updating an updated tree again leaves it as it is. |
| UrlBackfill.TreeFiles | add_urls_to_skill_trees.py:113-117 | Exactly the listed names ending in "_skill_tree.json" are processed. |
| UrlBackfill.BoolTextsHaveNoSkipMarker | add_urls_to_skill_trees.py:131 | Neither "True" nor "False" contains "already has" or "SKIP". |
| UrlBackfill.TallyAsWrittenNeverSkips | add_urls_to_skill_trees.py:126-134 | As written, the skipped count stays 0, and updated + errors is the number of files. |
| UrlBackfill.SkippedFileCountedAsError | add_urls_to_skill_trees.py:129-134 | A file that already has a URL is counted as an error. |
| UrlBackfill.TallyIntendedCounts | add_urls_to_skill_trees.py:126-134 | The intended tally counts updates and already-present URLs, and the three counts add up to the number of files. |
| UrlBackfill.TalliesAgree | add_urls_to_skill_trees.py:126-134 | Both tallies count the same updates; the errors as written are the intended skips plus the intended errors. |
| UrlBackfill.SkillTreeDir.UpdateFile | add_urls_to_skill_trees.py:46-96 | Updating one file returns True exactly when the file was rewritten, and the directory becomes the specified one. |
| UrlBackfill.SkillTreeDir.UpdateAll | add_urls_to_skill_trees.py:99-141 | Nothing happens with an empty map. Otherwise every tree file is updated in listing order and the tally is the one the code computes. |
| Pipeline.LeafPreorder | convert_fetched_jobs_to_api_format.py:314-316 | A built leaf is visited alone and is a skill node exactly when its kind is "skill". |
| Pipeline.NodePreorder | convert_fetched_jobs_to_api_format.py:317-319 | A built category node is visited before its children and is never a skill node. |
| Pipeline.LeavesCollected | convert_fetched_jobs_to_api_format.py:313-319 | A built leaf list gives back its entries when its kind is "skill", and nothing otherwise. |
| Pipeline.NodeCollected | convert_fetched_jobs_to_api_format.py:313-319 | A built branch of leaves gives back its skill entries, and the walk gets through it. |
| Pipeline.CategoryNodesCollected | convert_fetched_jobs_to_api_format.py:313-319 | The technical category nodes give the truthy categories' entries in dict order. |
| Pipeline.TechnicalCollected | convert_fetched_jobs_to_api_format.py:313-319 | The "Technical Skills" branch gives the technical entries. |
| Pipeline.BucketCollected | convert_fetched_jobs_to_api_format.py:313-319 | A bucket branch gives its entries for a skill bucket, and nothing for a certification, qualification or requirement bucket. |
| Pipeline.BranchCollected | convert_fetched_jobs_to_api_format.py:313-319 | Each possible branch gives its specified contribution. |
| Pipeline.BranchesCollected | convert_fetched_jobs_to_api_format.py:313-319 | The first n branches give their contributions, in order. |
| Pipeline.SkillsOfAllBranches | convert_fetched_jobs_to_api_format.py:313-319 | All branches together give the technical skills, then the soft skills, then the domains. |
| Pipeline.CollectedFromBuiltTree | convert_fetched_jobs_to_api_format.py:313-321 | On a tree the builder made, the walk always gets through. It collects the technical skills in category order, then the soft skills, then the domains; certification, qualification and requirement leaves never appear. |
| Pipeline.SkillsStringOfBuiltTree | convert_fetched_jobs_to_api_format.py:295-322 | For a truthy id and a built tree, the skills string is the first 20 of those names joined by ", " when they are all strings, and "" otherwise, because the join raises. |
| Pipeline.TreeFileNameRoundTrip | job_skill_tree.py:211 | A saved tree's file name for a numeric id is processed by the backfill, which reads back the same id. |

## Left out

- HTTP: `fetch_all_jobs`, `fetch_job_details` and the AI request. Their results are parameters (`detailsOf`, `JobInputs.response`), as are `json.loads` (`parse`) and `html.unescape` (`unescape`).
- File and directory I/O: `open`, `json.load`, `json.dump`, `os.makedirs`, `glob`, `os.listdir`. Loaded files are parameters, and the tree directory is a map from name to parsed content.
- Command-line parsing, printing and `time.sleep`.
- The missing-directory check of `update_all_skill_trees` and the missing-file check of `generate_skill_trees_for_all_jobs`: both only print and return.
- A jobs file that is not valid JSON: `json.load` raises before any modelled code runs.
- `fetch_all_jobs` returning an empty list on error is the empty `jobs` input of `FetchJobs`.
- `extract_salary` and the regular-expression half of `extract_skills_from_description`: they depend on Python's regex search semantics. Their results are fields of `JobConvert.Extracted`; the raise of `extract_salary` on a truthy non-string salary range is modelled.
- `clean_html_description` and `clean_job_description`: they depend on `html.unescape`. The cleaned text of a string description is a parameter; the empty result for a falsy description and the raise for a truthy non-string one are modelled.
- `calculate_expires_at`: it depends on the clock and on `datetime` parsing. Its result is a parameter (`JobConvert.Extracted.expiresAt`), which is `None` where adding 90 days overflows past year 9999; that raise of `convert_job` is modelled.
- `convert_all_jobs`: only a loop that catches exceptions around `convert_job` and writes a file.
- The HTML template, its string substitution, D3's tree layout, link paths, transitions, zoom, tooltips and CSS: these are floating-point geometry and a foreign library.
- PyText.Lower, PyText.TitleFrom, PyText.IsDigit: case mapping and `\d` cover ASCII only; non-ASCII letters and digits are not modelled.
- JobSkillTree.SafeTitle: Python's Unicode-aware `\w` is the parameter `isWord`.
- JsonValue.Json: floating-point numbers are not modelled; JSON numbers are integers.
- JobConvert.ExperienceLevel: requires a scalar title, because the text Python formats for a list or dict title is its repr, which is not modelled. The same holds for JobConvert.ConvertJob.
- JobFetcher.ParseJob: requires a scalar id, because the board URL would format a list or dict id as its repr. The same holds for JobFetcher.BaseRecord, JobFetcher.ParsedJob and JobSkillTree.TreeFileName.
- JobFetcher.Fetched, JobFetcher.FetchJobs: a kept job whose id is a list or a dict makes the whole fetch fail, where Python formats the id's repr into the board URL and goes on.
- JobFetcher.DetailsHead: a truthy content that is not a string is treated as raising, although `html.unescape` would return a list unchanged when it holds no '&'.
- JobFetcher.AddDetails: the order in which "salary_range" and "employment_type" are first added to the record is not stated; their values are.
- JobSkillTree.GenerateAll: the per-job step is a parameter, and JobSkillTree.Generate is the one the script uses.
- JobSkillTree.HtmlFileName: modelled, but no property is stated about the page's file name beyond its construction.

## Findings

| source | as written | input that shows it | evidently intended | confidence | as-written member | corrected member |
|---|---|---|---|---|---|---|
| add_urls_to_skill_trees.py:129-134 | A file is counted as skipped when the text of the boolean result contains "already has" or "SKIP". The result is only ever True or False, so nothing is counted as skipped, and a tree that already has a URL is counted as an error. | one tree file whose application_url is already set: the tally is 0 updated, 0 skipped, 1 error | a tree that already has a URL counts as skipped, and only the other refusals count as errors | not executed | UrlBackfill.TallyAsWritten | UrlBackfill.TallyIntended |
