/**
 * The backfill of application URLs into saved skill trees (add_urls_to_skill_trees.py):
 * the `job_<digits>_` file-name scanner, the id-to-job map built from the fetched jobs,
 * the in-place update of one tree, and the pass over a directory with its tally.
 *
 * The directory is a map from file name to parsed content (`None` for a file that is not
 * valid JSON); reading and writing it are the map's lookups and updates.
 */
module UrlBackfill {
  import opened Wrappers
  import opened PyText
  import opened JsonValue

  // ---------------------------------------------------------------------------
  // extract_job_id_from_filename
  // ---------------------------------------------------------------------------

  /** The length of the run of decimal digits `s` starts with. */
  function DigitRun(s: string): (n: nat)
    ensures n <= |s| && AllDigits(s[..n])
    ensures n == |s| || !IsDigit(s[n])
  {
    if s != [] && IsDigit(s[0]) then
      var n := 1 + DigitRun(s[1..]);
      assert s[..n] == [s[0]] + s[1..][..n - 1];
      n
    else 0
  }

  /** A run of digits followed by a non-digit is exactly as long as the digits. */
  lemma {:induction false} DigitRunOf(digits: string, rest: string)
    requires AllDigits(digits)
    requires rest == [] || !IsDigit(rest[0])
    ensures DigitRun(digits + rest) == |digits|
  {
    if digits != [] {
      assert (digits + rest)[1..] == digits[1..] + rest;
      DigitRunOf(digits[1..], rest);
    }
  }

  /** The file-name pattern ("job_", digits, "_") matches at index `i` of `s`. */
  predicate MatchAt(s: string, i: nat) {
    && i + 4 <= |s| && s[i..i + 4] == "job_"
    && var d := DigitRun(s[i + 4..]);
       1 <= d && i + 4 + d < |s| && s[i + 4 + d] == '_'
  }

  /** The digits of a match at `i`, read as a number. */
  function IdAt(s: string, i: nat): nat
    requires MatchAt(s, i)
  {
    var d := DigitRun(s[i + 4..]);
    assert s[i + 4..][..d] == s[i + 4..i + 4 + d];
    DigitsValue(s[i + 4..i + 4 + d])
  }

  /** The leftmost index at or after `i` where the pattern matches, as `re.search` finds it. */
  function FirstMatch(s: string, i: nat): (r: Option<nat>)
    requires i <= |s|
    ensures r.None? ==> forall j | i <= j <= |s| :: !MatchAt(s, j)
    ensures r.Some? ==> i <= r.value < |s| && MatchAt(s, r.value)
    ensures r.Some? ==> forall j | i <= j < r.value :: !MatchAt(s, j)
    decreases |s| - i
  {
    if MatchAt(s, i) then Some(i)
    else if i == |s| then None
    else FirstMatch(s, i + 1)
  }

  /** `extract_job_id_from_filename` */
  function ExtractJobId(filename: string): Option<nat> {
    match FirstMatch(filename, 0)
    case None => None
    case Some(i) => Some(IdAt(filename, i))
  }

  /** The id written into a `job_<id>_...` name is the id read back from it. */
  lemma ExtractJobIdOfName(n: nat, rest: string)
    ensures ExtractJobId("job_" + NatToString(n) + "_" + rest) == Some(n)
  {
    var digits := NatToString(n);
    var s := "job_" + digits + "_" + rest;
    assert s[4..] == digits + ("_" + rest);
    DigitRunOf(digits, "_" + rest);
    assert s[4 + |digits|] == '_';
    assert MatchAt(s, 0);
    assert s[4..4 + |digits|] == digits;
    DigitsValueOfNatToString(n);
  }

  /** A name without the pattern anywhere yields no id. */
  lemma ExtractJobIdNone(filename: string)
    requires forall j | 0 <= j <= |filename| :: !MatchAt(filename, j)
    ensures ExtractJobId(filename) == None
  {
  }

  // ---------------------------------------------------------------------------
  // load_jobs_mapping
  // ---------------------------------------------------------------------------

  /** What `jobs_map` holds for one job. */
  datatype JobEntry = JobEntry(applicationUrl: Json, title: Json, location: Json)

  /** The dict key a (hashable) id stands for: Python's `True == 1` and `False == 0`. */
  function KeyOf(id: Json): Json
    requires IsScalar(id)
  {
    match id
    case Bool(b) => Int(if b then 1 else 0)
    case _ => id
  }

  function JobId(job: Json): Json
    requires job.Obj?
  {
    Get(job.fields, "id", Null)
  }

  /** The entry for a job: its URL (application, else board page, else empty), title and location. */
  function EntryOf(job: seq<(string, Json)>): JobEntry {
    var app := Get(job, "application_url", Null);
    JobEntry(if Truthy(app) then app else Get(job, "greenhouse_url", Str("")),
             Get(job, "title", Str("")), Get(job, "location", Str("")))
  }

  /** Every job is a dict and every truthy id can be a dict key; otherwise the load raises. */
  predicate Loadable(jobs: seq<Json>) {
    forall k | 0 <= k < |jobs| :: jobs[k].Obj? && (Truthy(JobId(jobs[k])) ==> IsScalar(JobId(jobs[k])))
  }

  /** `jobs_map` after the loop over `jobs`. */
  function JobsMap(jobs: seq<Json>): map<Json, JobEntry>
    requires Loadable(jobs)
  {
    if jobs == [] then map[]
    else
      var job := jobs[|jobs| - 1];
      var m := JobsMap(jobs[..|jobs| - 1]);
      if Truthy(JobId(job)) then m[KeyOf(JobId(job)) := EntryOf(job.fields)] else m
  }

  /** A key is in the map exactly when some job has a truthy id standing for it. */
  lemma {:induction false} JobsMapDomain(jobs: seq<Json>, key: Json)
    requires Loadable(jobs)
    ensures key in JobsMap(jobs) <==>
            exists j | 0 <= j < |jobs| :: Truthy(JobId(jobs[j])) && KeyOf(JobId(jobs[j])) == key
  {
    if jobs != [] {
      var init := jobs[..|jobs| - 1];
      JobsMapDomain(init, key);
      assert forall j | 0 <= j < |init| :: init[j] == jobs[j];
    }
  }

  /** The entry for a key comes from the last job whose id stands for it. */
  lemma {:induction false} JobsMapLastWins(jobs: seq<Json>, j: nat)
    requires Loadable(jobs) && j < |jobs| && Truthy(JobId(jobs[j]))
    requires forall k | j < k < |jobs| :: !Truthy(JobId(jobs[k])) || KeyOf(JobId(jobs[k])) != KeyOf(JobId(jobs[j]))
    ensures KeyOf(JobId(jobs[j])) in JobsMap(jobs)
    ensures JobsMap(jobs)[KeyOf(JobId(jobs[j]))] == EntryOf(jobs[j].fields)
  {
    if j < |jobs| - 1 {
      JobsMapLastWins(jobs[..|jobs| - 1], j);
    }
  }

  /** The URL is `application_url` when truthy, else `greenhouse_url`, else `''`. */
  lemma EntryUrl(job: seq<(string, Json)>)
    ensures var url := EntryOf(job).applicationUrl;
            && (Truthy(Get(job, "application_url", Null)) ==> url == Get(job, "application_url", Null))
            && (!Truthy(Get(job, "application_url", Null)) && Lookup(job, "greenhouse_url").Some?
                ==> url == Lookup(job, "greenhouse_url").value)
            && (!Truthy(Get(job, "application_url", Null)) && Lookup(job, "greenhouse_url").None? ==> url == Str(""))
  {
  }

  /** The map and the loadability of one more job. */
  lemma JobsMapStep(jobs: seq<Json>, i: nat)
    requires i < |jobs| && Loadable(jobs[..i])
    requires jobs[i].Obj? && (Truthy(JobId(jobs[i])) ==> IsScalar(JobId(jobs[i])))
    ensures Loadable(jobs[..i + 1])
    ensures JobsMap(jobs[..i + 1]) == if Truthy(JobId(jobs[i])) then JobsMap(jobs[..i])[KeyOf(JobId(jobs[i])) := EntryOf(jobs[i].fields)]
                                     else JobsMap(jobs[..i])
  {
    assert jobs[..i + 1][..i] == jobs[..i];
  }

  /**
   * `load_jobs_mapping`. `file` is the loaded file, `None` when it does not exist
   * (the map is then empty); the result is `None` where the load raises.
   */
  method LoadJobsMapping(file: Option<Json>) returns (r: Option<map<Json, JobEntry>>)
    ensures file.None? ==> r == Some(map[])
    ensures file.Some? ==>
              var jobs := if file.value.Obj? then Iterate(Get(file.value.fields, "jobs", Arr([]))) else None;
              && (r.Some? <==> jobs.Some? && Loadable(jobs.value))
              && (r.Some? ==> r.value == JobsMap(jobs.value))
  {
    if file.None? {
      return Some(map[]);
    }
    if !file.value.Obj? {
      return None;
    }
    var items := Iterate(Get(file.value.fields, "jobs", Arr([])));
    if items.None? {
      return None;
    }
    var jobs := items.value;
    var m: map<Json, JobEntry> := map[];
    var i := 0;
    while i < |jobs|
      invariant 0 <= i <= |jobs| && Loadable(jobs[..i])
      invariant m == JobsMap(jobs[..i])
    {
      var job := jobs[i];
      if !job.Obj? || (Truthy(JobId(job)) && !IsScalar(JobId(job))) {
        assert !Loadable(jobs);
        return None;
      }
      JobsMapStep(jobs, i);
      if Truthy(JobId(job)) {
        m := m[KeyOf(JobId(job)) := EntryOf(job.fields)];
      }
      i := i + 1;
    }
    assert jobs[..i] == jobs;
    r := Some(m);
  }

  // ---------------------------------------------------------------------------
  // update_skill_tree_file
  // ---------------------------------------------------------------------------

  /** How `update_skill_tree_file` ends; only `Updated` returns True. */
  datatype UpdateOutcome =
    | Updated(tree: Json)    // the new tree, written back
    | NoJobId                // no id in the tree or its name
    | HasUrl                 // the tree already has a truthy application_url
    | NotInMap               // the id is not a key of the jobs map
    | Failed                 // unreadable file, invalid JSON, or an exception

  /** The tree's `job_id`, or the one in its file name when that is falsy. */
  function TreeJobId(fields: seq<(string, Json)>, filename: string): Json {
    var id := Get(fields, "job_id", Null);
    if Truthy(id) then id
    else match ExtractJobId(filename)
      case Some(n) => Int(n)
      case None => Null
  }

  /** Writes `value` under `key` when the tree's value is falsy and the new one truthy. */
  function FillIfMissing(fields: seq<(string, Json)>, key: string, value: Json): seq<(string, Json)> {
    if !Truthy(Get(fields, key, Null)) && Truthy(value) then Put(fields, key, value) else fields
  }

  /** The writes of a successful update. */
  function Fill(fields: seq<(string, Json)>, e: JobEntry): seq<(string, Json)> {
    var t1 := Put(fields, "application_url", e.applicationUrl);
    FillIfMissing(FillIfMissing(t1, "job_title", e.title), "location", e.location)
  }

  /** The decision and update of `update_skill_tree_file` on a parsed file. */
  function UpdateTree(tree: Json, filename: string, jobs: map<Json, JobEntry>): UpdateOutcome {
    if !tree.Obj? then Failed
    else
      var id := TreeJobId(tree.fields, filename);
      if !Truthy(id) then NoJobId
      else if Truthy(Get(tree.fields, "application_url", Null)) then HasUrl
      else if !IsScalar(id) then Failed
      else if KeyOf(id) !in jobs then NotInMap
      else Updated(Obj(Fill(tree.fields, jobs[KeyOf(id)])))
  }

  /** The tree in the file after the update. */
  function After(tree: Json, outcome: UpdateOutcome): Json {
    if outcome.Updated? then outcome.tree else tree
  }

  /** Filling a key sets it only when it is falsy and the new value truthy; nothing else moves. */
  lemma FillIfMissingEffect(fields: seq<(string, Json)>, key: string, value: Json)
    ensures var r := FillIfMissing(fields, key, value);
            && Lookup(r, key) == (if !Truthy(Get(fields, key, Null)) && Truthy(value) then Some(value) else Lookup(fields, key))
            && forall k | k != key :: Lookup(r, k) == Lookup(fields, k)
  {
  }

  /**
   * A successful update sets `application_url`, fills `job_title` and `location` only
   * where the tree's value is falsy and the job's truthy, and changes no other key.
   */
  lemma UpdateEffect(tree: Json, filename: string, jobs: map<Json, JobEntry>)
    requires UpdateTree(tree, filename, jobs).Updated?
    ensures var id := TreeJobId(tree.fields, filename);
            var e := jobs[KeyOf(id)];
            var r := UpdateTree(tree, filename, jobs).tree.fields;
            && Lookup(r, "application_url") == Some(e.applicationUrl)
            && Lookup(r, "job_title") == Lookup(FillIfMissing(tree.fields, "job_title", e.title), "job_title")
            && Lookup(r, "location") == Lookup(FillIfMissing(tree.fields, "location", e.location), "location")
            && forall k | k != "application_url" && k != "job_title" && k != "location" ::
                 Lookup(r, k) == Lookup(tree.fields, k)
  {
    var e := jobs[KeyOf(TreeJobId(tree.fields, filename))];
    var t1 := Put(tree.fields, "application_url", e.applicationUrl);
    var t2 := FillIfMissing(t1, "job_title", e.title);
    FillIfMissingEffect(t1, "job_title", e.title);
    FillIfMissingEffect(t2, "location", e.location);
  }

  /** The three refusals leave the tree as it was. */
  lemma UpdateRefusals(tree: Json, filename: string, jobs: map<Json, JobEntry>)
    requires tree.Obj?
    ensures var id := TreeJobId(tree.fields, filename);
            var o := UpdateTree(tree, filename, jobs);
            && (!Truthy(id) ==> o == NoJobId)
            && (Truthy(id) && Truthy(Get(tree.fields, "application_url", Null)) ==> o == HasUrl)
            && (Truthy(id) && !Truthy(Get(tree.fields, "application_url", Null)) && IsScalar(id) && KeyOf(id) !in jobs
                ==> o == NotInMap)
            && (!o.Updated? ==> After(tree, o) == tree)
  {
  }

  /** The writes leave `job_id`, and so the id the update reads, as they were. */
  lemma FillKeepsJobId(fields: seq<(string, Json)>, e: JobEntry, filename: string)
    ensures Lookup(Fill(fields, e), "job_id") == Lookup(fields, "job_id")
    ensures TreeJobId(Fill(fields, e), filename) == TreeJobId(fields, filename)
  {
    var t1 := Put(fields, "application_url", e.applicationUrl);
    var t2 := FillIfMissing(t1, "job_title", e.title);
    FillIfMissingEffect(t1, "job_title", e.title);
    FillIfMissingEffect(t2, "location", e.location);
  }

  /** Writing the same entry a second time changes nothing. */
  lemma FillTwice(fields: seq<(string, Json)>, e: JobEntry)
    ensures Fill(Fill(fields, e), e) == Fill(fields, e)
  {
    var t1 := Put(fields, "application_url", e.applicationUrl);
    var t2 := FillIfMissing(t1, "job_title", e.title);
    var t3 := FillIfMissing(t2, "location", e.location);
    FillIfMissingEffect(t1, "job_title", e.title);
    FillIfMissingEffect(t2, "location", e.location);
    assert Lookup(t3, "application_url") == Some(e.applicationUrl);
    PutSame(t3, "application_url");
    assert FillIfMissing(t3, "job_title", e.title) == t3;
    assert FillIfMissing(t3, "location", e.location) == t3;
  }

  /** Running the update on its own result leaves that result as it is. */
  lemma UpdateIdempotent(tree: Json, filename: string, jobs: map<Json, JobEntry>)
    requires UpdateTree(tree, filename, jobs).Updated?
    ensures var t := UpdateTree(tree, filename, jobs).tree;
            After(t, UpdateTree(t, filename, jobs)) == t
  {
    var id := TreeJobId(tree.fields, filename);
    var e := jobs[KeyOf(id)];
    var filled := Fill(tree.fields, e);
    FillKeepsJobId(tree.fields, e, filename);
    if Truthy(e.applicationUrl) {
      UpdateEffect(tree, filename, jobs);
      assert UpdateTree(Obj(filled), filename, jobs) == HasUrl;
    } else {
      FillTwice(tree.fields, e);
    }
  }

  // ---------------------------------------------------------------------------
  // update_all_skill_trees
  // ---------------------------------------------------------------------------

  /** A file name with the skill-tree suffix. */
  predicate IsTreeFile(name: string) {
    EndsWith(name, "_skill_tree.json")
  }

  /** The directory entries that are processed, in listing order. */
  function TreeFiles(listing: seq<string>): (r: seq<string>)
    ensures |r| <= |listing|
    ensures forall f :: f in r <==> f in listing && IsTreeFile(f)
  {
    if listing == [] then []
    else
      var last := listing[|listing| - 1];
      TreeFiles(listing[..|listing| - 1]) + (if IsTreeFile(last) then [last] else [])
  }

  /** How one file's update ends, given the directory's current contents. */
  function FileOutcome(files: map<string, Option<Json>>, name: string, jobs: map<Json, JobEntry>): UpdateOutcome {
    if name !in files || files[name].None? then Failed
    else UpdateTree(files[name].value, name, jobs)
  }

  /** The directory after updating one file. */
  function UpdateIn(files: map<string, Option<Json>>, name: string, jobs: map<Json, JobEntry>): map<string, Option<Json>> {
    var o := FileOutcome(files, name, jobs);
    if o.Updated? then files[name := Some(o.tree)] else files
  }

  /** The directory after updating the files `names` one after the other. */
  function UpdateEach(files: map<string, Option<Json>>, names: seq<string>, jobs: map<Json, JobEntry>): map<string, Option<Json>> {
    if names == [] then files
    else UpdateIn(UpdateEach(files, names[..|names| - 1], jobs), names[|names| - 1], jobs)
  }

  /** The outcomes of updating the files `names` one after the other. */
  function Outcomes(files: map<string, Option<Json>>, names: seq<string>, jobs: map<Json, JobEntry>): (r: seq<UpdateOutcome>)
    ensures |r| == |names|
  {
    if names == [] then []
    else
      var init := names[..|names| - 1];
      Outcomes(files, init, jobs) + [FileOutcome(UpdateEach(files, init, jobs), names[|names| - 1], jobs)]
  }

  /** The three counters. */
  datatype Tally = Tally(updated: nat, skipped: nat, errors: nat)

  /**
   * The counting in `update_all_skill_trees` as written: a result is counted as skipped
   * when `str(result)` contains "already has" or "SKIP", but `str` of a bool is
   * "True" or "False".
   */
  function TallyAsWritten(outcomes: seq<UpdateOutcome>): Tally {
    if outcomes == [] then Tally(0, 0, 0)
    else CountResult(TallyAsWritten(outcomes[..|outcomes| - 1]), outcomes[|outcomes| - 1].Updated?)
  }

  /** One pass of the counting loop as written, for the bool `result`. */
  function CountResult(t: Tally, result: bool): Tally {
    var text := Show(Bool(result));
    if result then t.(updated := t.updated + 1)
    else if Contains(text, "already has") || Contains(text, "SKIP") then t.(skipped := t.skipped + 1)
    else t.(errors := t.errors + 1)
  }

  /** The state of the directory pass after one more file. */
  lemma PassStep(files: map<string, Option<Json>>, names: seq<string>, i: nat, jobs: map<Json, JobEntry>)
    requires i < |names|
    ensures UpdateEach(files, names[..i + 1], jobs) == UpdateIn(UpdateEach(files, names[..i], jobs), names[i], jobs)
    ensures var o := FileOutcome(UpdateEach(files, names[..i], jobs), names[i], jobs);
            TallyAsWritten(Outcomes(files, names[..i + 1], jobs))
              == CountResult(TallyAsWritten(Outcomes(files, names[..i], jobs)), o.Updated?)
  {
    assert names[..i + 1][..i] == names[..i];
    var outs := Outcomes(files, names[..i + 1], jobs);
    assert outs[..|outs| - 1] == Outcomes(files, names[..i], jobs);
  }

  lemma BoolTextsHaveNoSkipMarker()
    ensures !Contains("True", "already has") && !Contains("True", "SKIP")
    ensures !Contains("False", "already has") && !Contains("False", "SKIP")
  {
    assert !OccursAt("False", "SKIP", 0) && !OccursAt("False", "SKIP", 1) by {
      assert "False"[0] != "SKIP"[0] && "False"[1] != "SKIP"[0];
    }
    assert !OccursAt("True", "SKIP", 0) by {
      assert "True"[0] != "SKIP"[0];
    }
  }

  /** As written, nothing is ever counted as skipped: skips land among the errors. */
  lemma {:induction false} TallyAsWrittenNeverSkips(outcomes: seq<UpdateOutcome>)
    ensures TallyAsWritten(outcomes).skipped == 0
    ensures var t := TallyAsWritten(outcomes); t.updated + t.errors == |outcomes|
  {
    if outcomes != [] {
      TallyAsWrittenNeverSkips(outcomes[..|outcomes| - 1]);
      BoolTextsHaveNoSkipMarker();
    }
  }

  /** One file that already has its URL: as written it is counted as an error. */
  lemma SkippedFileCountedAsError()
    ensures TallyAsWritten([HasUrl]) == Tally(0, 0, 1)
  {
    BoolTextsHaveNoSkipMarker();
    assert [HasUrl][..0] == [];
  }

  /** The evidently intended counting: files that already had a URL are skipped. */
  function TallyIntended(outcomes: seq<UpdateOutcome>): Tally {
    if outcomes == [] then Tally(0, 0, 0)
    else
      var t := TallyIntended(outcomes[..|outcomes| - 1]);
      match outcomes[|outcomes| - 1]
      case Updated(_) => t.(updated := t.updated + 1)
      case HasUrl => t.(skipped := t.skipped + 1)
      case _ => t.(errors := t.errors + 1)
  }

  function CountOf(outcomes: seq<UpdateOutcome>, p: UpdateOutcome -> bool): nat {
    if outcomes == [] then 0
    else CountOf(outcomes[..|outcomes| - 1], p) + (if p(outcomes[|outcomes| - 1]) then 1 else 0)
  }

  /**
   * The intended tally counts each kind of outcome once: updates, files that already
   * had a URL, and all other failures, adding up to the number of files.
   */
  lemma {:induction false} TallyIntendedCounts(outcomes: seq<UpdateOutcome>)
    ensures var t := TallyIntended(outcomes);
            && t.updated == CountOf(outcomes, (o: UpdateOutcome) => o.Updated?)
            && t.skipped == CountOf(outcomes, (o: UpdateOutcome) => o.HasUrl?)
            && t.updated + t.skipped + t.errors == |outcomes|
  {
    if outcomes != [] {
      TallyIntendedCounts(outcomes[..|outcomes| - 1]);
    }
  }

  /** The two tallies agree on updates; the errors as written are the intended skips plus errors. */
  lemma {:induction false} TalliesAgree(outcomes: seq<UpdateOutcome>)
    ensures TallyAsWritten(outcomes).updated == TallyIntended(outcomes).updated
    ensures TallyAsWritten(outcomes).errors == TallyIntended(outcomes).skipped + TallyIntended(outcomes).errors
  {
    if outcomes != [] {
      TalliesAgree(outcomes[..|outcomes| - 1]);
      BoolTextsHaveNoSkipMarker();
    }
  }

  /** The skill-tree directory whose files the backfill rewrites. */
  class SkillTreeDir {
    var files: map<string, Option<Json>>

    constructor(files0: map<string, Option<Json>>)
      ensures files == files0
    {
      files := files0;
    }

    /** `update_skill_tree_file`: True exactly when the file was rewritten. */
    method UpdateFile(name: string, jobs: map<Json, JobEntry>) returns (ok: bool)
      modifies this
      ensures ok == FileOutcome(old(files), name, jobs).Updated?
      ensures files == UpdateIn(old(files), name, jobs)
    {
      var o := FileOutcome(files, name, jobs);
      if o.Updated? {
        files := files[name := Some(o.tree)];
      }
      ok := o.Updated?;
    }

    /**
     * `update_all_skill_trees` after the directory listing: nothing happens when the
     * map is empty; otherwise every tree file is updated in listing order and counted.
     */
    method UpdateAll(listing: seq<string>, jobs: map<Json, JobEntry>) returns (ran: bool, tally: Tally)
      modifies this
      ensures ran == (jobs != map[])
      ensures !ran ==> files == old(files)
      ensures ran ==> var names := TreeFiles(listing);
                      && files == UpdateEach(old(files), names, jobs)
                      && tally == TallyAsWritten(Outcomes(old(files), names, jobs))
    {
      if jobs == map[] {
        return false, Tally(0, 0, 0);
      }
      var names := TreeFiles(listing);
      ghost var files0 := files;
      tally := Tally(0, 0, 0);
      var i := 0;
      while i < |names|
        invariant 0 <= i <= |names|
        invariant files == UpdateEach(files0, names[..i], jobs)
        invariant tally == TallyAsWritten(Outcomes(files0, names[..i], jobs))
      {
        PassStep(files0, names, i, jobs);
        var result := UpdateFile(names[i], jobs);
        if result {
          tally := tally.(updated := tally.updated + 1);
        } else if Contains(Show(Bool(result)), "already has") || Contains(Show(Bool(result)), "SKIP") {
          tally := tally.(skipped := tally.skipped + 1);
        } else {
          tally := tally.(errors := tally.errors + 1);
        }
        i := i + 1;
      }
      assert names[..i] == names;
      ran := true;
    }
  }
}
