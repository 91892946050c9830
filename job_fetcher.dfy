/**
 * The record mapping and filtering of `XAIJobFetcher` (fetch_jobs.py): `parse_job`
 * turns one Greenhouse job into the stored record, `fetch_jobs` filters the jobs by a
 * search term and parses the rest, and `save_jobs_to_json` wraps them in an envelope.
 *
 * The HTTP requests are parameters: `detailsOf(id)` is what `fetch_job_details(id)`
 * returns (`Null` when the request failed), `unescape` stands for `html.unescape`.
 * A result of `None` means the Python code raises.
 */
module JobFetcher {
  import opened Wrappers
  import opened PyText
  import opened JsonValue
  import opened Subsequences

  type Dict = seq<(string, Json)>

  /** `d.get(k, default)` when `d` must be a dict; `None` where `.get` raises. */
  function GetFrom(d: Json, k: string, default: Json): (r: Option<Json>)
    ensures r.Some? <==> d.Obj?
  {
    if d.Obj? then Some(Get(d.fields, k, default)) else None
  }

  /** The location dict's `name`, "Not specified" without one; `None` when the location is not a dict. */
  function LocationName(job: Dict): Option<Json> {
    GetFrom(Get(job, "location", Obj([])), "name", Str("Not specified"))
  }

  /**
   * The first entry's `name` of a non-empty list under `key` ("Not specified" when the
   * key is missing or its value is falsy); `None` where the first entry has no `name` lookup.
   */
  function FirstName(job: Dict, key: string): Option<Json> {
    var v := Get(job, key, Arr([Obj([])]));
    if !Truthy(Get(job, key, Null)) then Some(Str("Not specified"))
    else if v.Arr? then GetFrom(v.items[0], "name", Str("Not specified"))
    else None   // a string's first character, a dict, a number: no `.get`, or no `[0]`
  }

  /** The public job page of a board, built from the token and the id as Python formats it. */
  function GreenhouseUrl(boardToken: string, id: Json): string
    requires IsScalar(id)
  {
    "https://boards.greenhouse.io/" + boardToken + "/jobs/" + Show(id)
  }

  const BaseKeys: seq<string> :=
    ["id", "title", "location", "department", "office", "application_url", "greenhouse_url",
     "updated_at", "internal_job_id"]

  /** The dict `parsed` before the details are added. */
  function BaseRecord(job: Dict, boardToken: string): Option<Dict>
    requires IsScalar(Get(job, "id", Null))
  {
    match (LocationName(job), FirstName(job, "departments"), FirstName(job, "offices"))
    case (Some(location), Some(department), Some(office)) =>
      var id := Get(job, "id", Null);
      Some([("id", id), ("title", Get(job, "title", Null)), ("location", location),
            ("department", department), ("office", office),
            ("application_url", Get(job, "absolute_url", Null)),
            ("greenhouse_url", Str(GreenhouseUrl(boardToken, id))),
            ("updated_at", Get(job, "updated_at", Null)),
            ("internal_job_id", Get(job, "internal_job_id", Null))])
    case _ => None
  }

  /** One pass of the metadata loop: only "Salary Range" and "Employment Type" entries count. */
  function MetadataItem(parsed: Dict, item: Json): Option<Dict> {
    if !item.Obj? then None
    else
      var name := Get(item.fields, "name", Null);
      var value := Get(item.fields, "value", Null);
      if name == Str("Salary Range") then Some(Put(parsed, "salary_range", value))
      else if name == Str("Employment Type") then Some(Put(parsed, "employment_type", value))
      else Some(parsed)
  }

  /** `parsed` after the loop over `metadata`. */
  function Metadata(parsed: Dict, items: seq<Json>): Option<Dict> {
    if items == [] then Some(parsed)
    else
      match Metadata(parsed, items[..|items| - 1])
      case None => None
      case Some(p) => MetadataItem(p, items[|items| - 1])
  }

  /** The description and requisition id a details response adds, before the metadata. */
  function DetailsHead(parsed: Dict, details: Dict, unescape: string -> string): Option<Dict> {
    var raw := Get(details, "content", Str(""));
    if Truthy(raw) && !raw.Str? then None
    else
      var description := if Truthy(raw) then Str(unescape(raw.s)) else Str("");
      Some(Put(Put(parsed, "description", description), "requisition_id", Get(details, "requisition_id", Null)))
  }

  /** `parse_job`, with the details response `detailsOf(id)` in place of the request. */
  function ParsedJob(job: Dict, boardToken: string, detailsOf: Json -> Json, unescape: string -> string): Option<Dict>
    requires IsScalar(Get(job, "id", Null))
  {
    var id := Get(job, "id", Null);
    match BaseRecord(job, boardToken)
    case None => None
    case Some(parsed) =>
      var details := detailsOf(id);
      if !Truthy(id) || !Truthy(details) then Some(parsed)
      else if !details.Obj? then None
      else
        match (DetailsHead(parsed, details.fields, unescape), Iterate(Get(details.fields, "metadata", Arr([]))))
        case (Some(p), Some(items)) => Metadata(p, items)
        case _ => None
  }

  /**
   * The part of `parse_job` that runs on a details response: the description, the
   * requisition id, then the loop over the metadata entries.
   */
  method AddDetails(parsed: Dict, details: Dict, unescape: string -> string) returns (r: Option<Dict>)
    ensures r == match (DetailsHead(parsed, details, unescape), Iterate(Get(details, "metadata", Arr([]))))
                 case (Some(p), Some(items)) => Metadata(p, items)
                 case _ => None
  {
    var head := DetailsHead(parsed, details, unescape);
    if head.None? {
      return None;
    }
    var metadata := Iterate(Get(details, "metadata", Arr([])));
    if metadata.None? {
      return None;
    }
    var items := metadata.value;
    var record := head.value;
    var i := 0;
    while i < |items|
      invariant 0 <= i <= |items|
      invariant Metadata(head.value, items[..i]) == Some(record)
    {
      MetadataStep(head.value, items, i);
      var item := items[i];
      if !item.Obj? {
        MetadataFails(head.value, items, i + 1);
        return None;
      }
      var name := Get(item.fields, "name", Null);
      if name == Str("Salary Range") {
        record := Put(record, "salary_range", Get(item.fields, "value", Null));
      } else if name == Str("Employment Type") {
        record := Put(record, "employment_type", Get(item.fields, "value", Null));
      }
      i := i + 1;
    }
    assert items[..i] == items;
    r := Some(record);
  }

  /**
   * `parse_job`. Whatever `includeDetails` says, the details are requested for every
   * truthy id: the record has no `description` yet when the condition is evaluated.
   */
  method ParseJob(job: Dict, boardToken: string, includeDetails: bool, detailsOf: Json -> Json,
                  unescape: string -> string) returns (r: Option<Dict>)
    requires IsScalar(Get(job, "id", Null))
    ensures r == ParsedJob(job, boardToken, detailsOf, unescape)
  {
    var base := BaseRecord(job, boardToken);
    if base.None? {
      return None;
    }
    var parsed := base.value;
    var id := Get(job, "id", Null);
    BaseRecordNoDescription(job, boardToken);
    if (includeDetails || Lookup(parsed, "description").None?) && Truthy(id) {
      var details := detailsOf(id);
      if Truthy(details) {
        if !details.Obj? {
          return None;
        }
        r := AddDetails(parsed, details.fields, unescape);
        return;
      }
    }
    r := Some(parsed);
  }

  /** One pass of the metadata loop. */
  lemma MetadataStep(parsed: Dict, items: seq<Json>, i: nat)
    requires i < |items|
    ensures Metadata(parsed, items[..i + 1])
            == match Metadata(parsed, items[..i]) case None => None case Some(p) => MetadataItem(p, items[i])
  {
    assert items[..i + 1][..i] == items[..i];
  }

  /** Once the metadata loop raises, it raises whatever entries follow. */
  lemma {:induction false} MetadataFails(parsed: Dict, items: seq<Json>, i: nat)
    requires i <= |items|
    requires Metadata(parsed, items[..i]).None?
    ensures Metadata(parsed, items).None?
    decreases |items| - i
  {
    if i < |items| {
      MetadataStep(parsed, items, i);
      MetadataFails(parsed, items, i + 1);
    } else {
      assert items[..i] == items;
    }
  }

  /** The record's keys are the nine base keys, in the order of the dict literal. */
  lemma BaseRecordKeys(job: Dict, boardToken: string)
    requires IsScalar(Get(job, "id", Null))
    requires BaseRecord(job, boardToken).Some?
    ensures Keys(BaseRecord(job, boardToken).value) == BaseKeys
  {
    KeysAt(BaseRecord(job, boardToken).value);
  }

  /** The record has no description before the details are added. */
  lemma BaseRecordNoDescription(job: Dict, boardToken: string)
    requires IsScalar(Get(job, "id", Null))
    requires BaseRecord(job, boardToken).Some?
    ensures Lookup(BaseRecord(job, boardToken).value, "description").None?
  {
    BaseRecordKeys(job, boardToken);
  }

  /** The record's location and department are the values `LocationName` and `FirstName` give. */
  lemma BaseRecordPlaces(job: Dict, boardToken: string)
    requires IsScalar(Get(job, "id", Null))
    requires BaseRecord(job, boardToken).Some?
    ensures var p := BaseRecord(job, boardToken).value;
            && Lookup(p, "location") == LocationName(job)
            && Lookup(p, "department") == FirstName(job, "departments")
  {
    var p := BaseRecord(job, boardToken).value;
    LookupAt(p, 2);
    LookupAt(p, 3);
  }

  /** The record's `greenhouse_url` is the board's job page for the id. */
  lemma BaseRecordUrl(job: Dict, boardToken: string)
    requires IsScalar(Get(job, "id", Null))
    requires BaseRecord(job, boardToken).Some?
    ensures Lookup(BaseRecord(job, boardToken).value, "greenhouse_url")
            == Some(Str("https://boards.greenhouse.io/" + boardToken + "/jobs/" + Show(Get(job, "id", Null))))
  {
    var p := BaseRecord(job, boardToken).value;
    forall j | 0 <= j < 6
      ensures p[j].0 != p[6].0
    {
      assert |p[j].0| != 14;
    }
    LookupAt(p, 6);
  }

  /** The location is the location dict's `name`, or "Not specified" without one. */
  lemma LocationNameCases(job: Dict)
    ensures Lookup(job, "location").None? ==> LocationName(job) == Some(Str("Not specified"))
    ensures Lookup(job, "location") == Some(Obj([])) ==> LocationName(job) == Some(Str("Not specified"))
    ensures forall loc :: Lookup(job, "location") == Some(Obj(loc)) ==> LocationName(job) == Some(Get(loc, "name", Str("Not specified")))
    ensures Lookup(job, "location") == Some(Null) ==> LocationName(job).None?
  {
  }

  /** The department is the first department's `name` when the list is non-empty. */
  lemma FirstNameCases(job: Dict, key: string)
    ensures Lookup(job, key).None? || Lookup(job, key) == Some(Arr([])) ==> FirstName(job, key) == Some(Str("Not specified"))
    ensures forall items | Lookup(job, key) == Some(Arr(items)) && items != [] ::
              FirstName(job, key) == GetFrom(items[0], "name", Str("Not specified"))
  {
  }

  /** Without a truthy id, or without a details response, the record is the base record. */
  lemma NoDetailsBaseRecord(job: Dict, boardToken: string, detailsOf: Json -> Json, unescape: string -> string)
    requires IsScalar(Get(job, "id", Null))
    requires !Truthy(Get(job, "id", Null)) || !Truthy(detailsOf(Get(job, "id", Null)))
    ensures ParsedJob(job, boardToken, detailsOf, unescape) == BaseRecord(job, boardToken)
  {
  }

  /** An empty `content` gives the empty description; a non-empty one its unescaped text. */
  lemma DescriptionOfContent(parsed: Dict, details: Dict, unescape: string -> string)
    requires DetailsHead(parsed, details, unescape).Some?
    ensures var raw := Get(details, "content", Str(""));
            var d := Lookup(DetailsHead(parsed, details, unescape).value, "description");
            && (!Truthy(raw) ==> d == Some(Str("")))
            && (Truthy(raw) ==> d == Some(Str(unescape(raw.s))))
  {
    var raw := Get(details, "content", Str(""));
    var description := if Truthy(raw) then Str(unescape(raw.s)) else Str("");
    var p1 := Put(parsed, "description", description);
    assert Lookup(p1, "description") == Some(description);
  }

  /** Entries other than "Salary Range" and "Employment Type" change nothing. */
  lemma {:induction false} MetadataOtherKeys(parsed: Dict, items: seq<Json>, k: string)
    requires Metadata(parsed, items).Some?
    requires k != "salary_range" && k != "employment_type"
    ensures Lookup(Metadata(parsed, items).value, k) == Lookup(parsed, k)
  {
    if items != [] {
      MetadataOtherKeys(parsed, items[..|items| - 1], k);
    }
  }

  /** An entry is a "Salary Range" entry. */
  predicate IsSalary(item: Json) {
    item.Obj? && Get(item.fields, "name", Null) == Str("Salary Range")
  }

  /** The salary range comes from the last "Salary Range" entry. */
  lemma {:induction false} MetadataLastSalary(parsed: Dict, items: seq<Json>, j: nat)
    requires Metadata(parsed, items).Some?
    requires j < |items| && IsSalary(items[j])
    requires forall k | j < k < |items| :: !IsSalary(items[k])
    ensures Lookup(Metadata(parsed, items).value, "salary_range") == Some(Get(items[j].fields, "value", Null))
  {
    var init := items[..|items| - 1];
    var p := Metadata(parsed, init).value;
    if j == |items| - 1 {
      assert Lookup(Put(p, "salary_range", Get(items[j].fields, "value", Null)), "salary_range")
          == Some(Get(items[j].fields, "value", Null));
    } else {
      MetadataLastSalary(parsed, init, j);
    }
  }

  /** Without a "Salary Range" entry the record's salary range is what it was. */
  lemma {:induction false} MetadataNoSalary(parsed: Dict, items: seq<Json>)
    requires Metadata(parsed, items).Some?
    requires forall k | 0 <= k < |items| :: !IsSalary(items[k])
    ensures Lookup(Metadata(parsed, items).value, "salary_range") == Lookup(parsed, "salary_range")
  {
    if items != [] {
      MetadataNoSalary(parsed, items[..|items| - 1]);
    }
  }

  /** An entry is an "Employment Type" entry. */
  predicate IsEmploymentType(item: Json) {
    item.Obj? && Get(item.fields, "name", Null) == Str("Employment Type")
  }

  /** The employment type comes from the last "Employment Type" entry. */
  lemma {:induction false} MetadataLastEmploymentType(parsed: Dict, items: seq<Json>, j: nat)
    requires Metadata(parsed, items).Some?
    requires j < |items| && IsEmploymentType(items[j])
    requires forall k | j < k < |items| :: !IsEmploymentType(items[k])
    ensures Lookup(Metadata(parsed, items).value, "employment_type") == Some(Get(items[j].fields, "value", Null))
  {
    var init := items[..|items| - 1];
    var p := Metadata(parsed, init).value;
    if j == |items| - 1 {
      assert Lookup(Put(p, "employment_type", Get(items[j].fields, "value", Null)), "employment_type")
          == Some(Get(items[j].fields, "value", Null));
    } else {
      MetadataLastEmploymentType(parsed, init, j);
    }
  }

  /** Without an "Employment Type" entry the record's employment type is what it was. */
  lemma {:induction false} MetadataNoEmploymentType(parsed: Dict, items: seq<Json>)
    requires Metadata(parsed, items).Some?
    requires forall k | 0 <= k < |items| :: !IsEmploymentType(items[k])
    ensures Lookup(Metadata(parsed, items).value, "employment_type") == Lookup(parsed, "employment_type")
  {
    if items != [] {
      MetadataNoEmploymentType(parsed, items[..|items| - 1]);
    }
  }

  // ---------------------------------------------------------------------------
  // fetch_jobs and save_jobs_to_json
  // ---------------------------------------------------------------------------

  /** Whether the search keeps a job; `None` where reading its title raises. */
  function Keeps(job: Json, term: string): Option<bool> {
    if term == "" then Some(true)
    else if !job.Obj? then None
    else
      var title := Get(job.fields, "title", Str(""));
      if title.Str? then Some(Contains(Lower(title.s), Lower(term))) else None
  }

  /** A job `parse_job` turns into a record without raising. */
  predicate Parses(job: Json, boardToken: string, detailsOf: Json -> Json, unescape: string -> string) {
    && job.Obj? && IsScalar(Get(job.fields, "id", Null))
    && ParsedJob(job.fields, boardToken, detailsOf, unescape).Some?
  }

  /** The search can read the job's title, and `parse_job` does not raise on it if it is kept. */
  predicate JobOk(job: Json, term: string, boardToken: string, detailsOf: Json -> Json, unescape: string -> string) {
    && Keeps(job, term).Some?
    && (Keeps(job, term).value ==> Parses(job, boardToken, detailsOf, unescape))
  }

  /** Every job can be read by the search and every kept job parsed. */
  predicate Fetchable(jobs: seq<Json>, term: string, boardToken: string, detailsOf: Json -> Json,
                      unescape: string -> string)
  {
    forall k | 0 <= k < |jobs| :: JobOk(jobs[k], term, boardToken, detailsOf, unescape)
  }

  /** A list of jobs is fetchable exactly when its front is and its last job is. */
  lemma FetchableSnoc(jobs: seq<Json>, term: string, boardToken: string, detailsOf: Json -> Json,
                      unescape: string -> string)
    requires jobs != []
    ensures Fetchable(jobs, term, boardToken, detailsOf, unescape)
            <==> Fetchable(jobs[..|jobs| - 1], term, boardToken, detailsOf, unescape)
                 && JobOk(jobs[|jobs| - 1], term, boardToken, detailsOf, unescape)
  {
    assert forall k | 0 <= k < |jobs| - 1 :: jobs[..|jobs| - 1][k] == jobs[k];
  }

  /** The jobs the search keeps, in their original order. */
  function Kept(jobs: seq<Json>, term: string): (r: seq<Json>)
    requires forall k | 0 <= k < |jobs| :: Keeps(jobs[k], term).Some?
  {
    if jobs == [] then []
    else
      var last := jobs[|jobs| - 1];
      Kept(jobs[..|jobs| - 1], term) + (if Keeps(last, term).value then [last] else [])
  }

  /** The kept jobs are, in order, exactly those whose lowercased title contains the lowercased term. */
  lemma {:induction false} KeptSpec(jobs: seq<Json>, term: string)
    requires forall k | 0 <= k < |jobs| :: Keeps(jobs[k], term).Some?
    ensures IsSubseq(Kept(jobs, term), jobs)
    ensures forall j :: j in Kept(jobs, term) <==> j in jobs && Keeps(j, term) == Some(true)
    ensures forall j :: multiset(Kept(jobs, term))[j]
                        == if Keeps(j, term) == Some(true) then multiset(jobs)[j] else 0
  {
    if jobs != [] {
      var init, last := jobs[..|jobs| - 1], jobs[|jobs| - 1];
      KeptSpec(init, term);
      SnocDropLast(jobs);
      IsSubseqSnoc(Kept(init, term), init, last, Keeps(last, term).value);
      assert multiset(jobs) == multiset(init) + multiset{last};
    }
  }

  /** With no search term every job is kept. */
  lemma {:induction false} KeptAllWithoutTerm(jobs: seq<Json>)
    ensures Kept(jobs, "") == jobs
  {
    if jobs != [] {
      KeptAllWithoutTerm(jobs[..|jobs| - 1]);
      SnocDropLast(jobs);
    }
  }

  /** What the loop of `fetch_jobs` returns for the listed jobs; `None` where it raises. */
  function Fetched(jobs: seq<Json>, term: string, boardToken: string, detailsOf: Json -> Json,
                   unescape: string -> string): Option<seq<Dict>>
  {
    if jobs == [] then Some([])
    else
      var last := jobs[|jobs| - 1];
      match (Fetched(jobs[..|jobs| - 1], term, boardToken, detailsOf, unescape), Keeps(last, term))
      case (Some(records), Some(false)) => Some(records)
      case (Some(records), Some(true)) =>
        if Parses(last, boardToken, detailsOf, unescape)
        then Some(records + [ParsedJob(last.fields, boardToken, detailsOf, unescape).value])
        else None
      case _ => None
  }

  /** The loop succeeds exactly when every job can be searched and every kept job parsed. */
  lemma {:induction false} FetchedSucceeds(jobs: seq<Json>, term: string, boardToken: string,
                                           detailsOf: Json -> Json, unescape: string -> string)
    ensures Fetched(jobs, term, boardToken, detailsOf, unescape).Some?
            <==> Fetchable(jobs, term, boardToken, detailsOf, unescape)
  {
    if jobs != [] {
      FetchedSucceeds(jobs[..|jobs| - 1], term, boardToken, detailsOf, unescape);
      FetchableSnoc(jobs, term, boardToken, detailsOf, unescape);
    }
  }

  /** When the loop succeeds it returns, in order, the parsed record of each kept job. */
  lemma {:induction false} FetchedRecords(jobs: seq<Json>, term: string, boardToken: string,
                                          detailsOf: Json -> Json, unescape: string -> string)
    requires Fetchable(jobs, term, boardToken, detailsOf, unescape)
    ensures var r := Fetched(jobs, term, boardToken, detailsOf, unescape);
            var kept := Kept(jobs, term);
            && r.Some? && |r.value| == |kept|
            && forall k | 0 <= k < |kept| ::
                 Parses(kept[k], boardToken, detailsOf, unescape)
                 && r.value[k] == ParsedJob(kept[k].fields, boardToken, detailsOf, unescape).value
  {
    if jobs != [] {
      var init, last := jobs[..|jobs| - 1], jobs[|jobs| - 1];
      FetchableSnoc(jobs, term, boardToken, detailsOf, unescape);
      FetchedRecords(init, term, boardToken, detailsOf, unescape);
      var kept := Kept(init, term);
      var records := Fetched(init, term, boardToken, detailsOf, unescape).value;
      if Keeps(last, term).value {
        assert Kept(jobs, term) == kept + [last];
        var all := records + [ParsedJob(last.fields, boardToken, detailsOf, unescape).value];
        assert Fetched(jobs, term, boardToken, detailsOf, unescape).value == all;
        forall k | 0 <= k < |kept| + 1
          ensures Parses((kept + [last])[k], boardToken, detailsOf, unescape)
          ensures all[k] == ParsedJob((kept + [last])[k].fields, boardToken, detailsOf, unescape).value
        {
          if k < |kept| {
            assert (kept + [last])[k] == kept[k];
          }
        }
      } else {
        assert Kept(jobs, term) == kept;
      }
    }
  }

  /**
   * `fetch_jobs` after the listing request: keeps the jobs whose title contains the
   * search term (all of them for an empty term) and parses each kept job.
   */
  method FetchJobs(jobs: seq<Json>, includeDetails: bool, term: string, boardToken: string,
                   detailsOf: Json -> Json, unescape: string -> string) returns (r: Option<seq<Dict>>)
    ensures r == Fetched(jobs, term, boardToken, detailsOf, unescape)
  {
    var parsedJobs: seq<Dict> := [];
    var i := 0;
    while i < |jobs|
      invariant 0 <= i <= |jobs|
      invariant Fetched(jobs[..i], term, boardToken, detailsOf, unescape) == Some(parsedJobs)
    {
      FetchedNext(jobs, i, term, boardToken, detailsOf, unescape, parsedJobs);
      var job := jobs[i];
      var keep := Keeps(job, term);
      if keep.None? {
        FetchedFails(jobs, i + 1, term, boardToken, detailsOf, unescape);
        return None;
      }
      if keep.value {
        if !job.Obj? || !IsScalar(Get(job.fields, "id", Null)) {
          // The source formats a list or dict id; that case is not modelled.
          FetchedFails(jobs, i + 1, term, boardToken, detailsOf, unescape);
          return None;
        }
        var parsed := ParseJob(job.fields, boardToken, includeDetails, detailsOf, unescape);
        if parsed.None? {
          FetchedFails(jobs, i + 1, term, boardToken, detailsOf, unescape);
          return None;
        }
        parsedJobs := parsedJobs + [parsed.value];
      }
      i := i + 1;
    }
    assert jobs[..i] == jobs;
    r := Some(parsedJobs);
  }

  /** One pass of the loop of `fetch_jobs`. */
  lemma FetchedStep(jobs: seq<Json>, i: nat, term: string, boardToken: string,
                    detailsOf: Json -> Json, unescape: string -> string)
    requires i < |jobs|
    ensures var last := jobs[i];
            Fetched(jobs[..i + 1], term, boardToken, detailsOf, unescape)
            == match (Fetched(jobs[..i], term, boardToken, detailsOf, unescape), Keeps(last, term))
               case (Some(records), Some(false)) => Some(records)
               case (Some(records), Some(true)) =>
                 if Parses(last, boardToken, detailsOf, unescape)
                 then Some(records + [ParsedJob(last.fields, boardToken, detailsOf, unescape).value])
                 else None
               case _ => None
  {
    assert jobs[..i + 1][..i] == jobs[..i];
  }

  /** One pass of the loop of `fetch_jobs`, case by case, from the records so far. */
  lemma FetchedNext(jobs: seq<Json>, i: nat, term: string, boardToken: string,
                    detailsOf: Json -> Json, unescape: string -> string, records: seq<Dict>)
    requires i < |jobs|
    ensures Fetched(jobs[..i], term, boardToken, detailsOf, unescape) == Some(records)
            && Keeps(jobs[i], term) == Some(false)
            ==> Fetched(jobs[..i + 1], term, boardToken, detailsOf, unescape) == Some(records)
    ensures Fetched(jobs[..i], term, boardToken, detailsOf, unescape) == Some(records)
            && Keeps(jobs[i], term) == Some(true) && Parses(jobs[i], boardToken, detailsOf, unescape)
            ==> Fetched(jobs[..i + 1], term, boardToken, detailsOf, unescape)
                == Some(records + [ParsedJob(jobs[i].fields, boardToken, detailsOf, unescape).value])
    ensures Keeps(jobs[i], term).None?
            || (Keeps(jobs[i], term) == Some(true) && !Parses(jobs[i], boardToken, detailsOf, unescape))
            ==> Fetched(jobs[..i + 1], term, boardToken, detailsOf, unescape).None?
  {
    FetchedStep(jobs, i, term, boardToken, detailsOf, unescape);
  }

  /** Once the loop raises, it raises whatever jobs follow. */
  lemma {:induction false} FetchedFails(jobs: seq<Json>, i: nat, term: string, boardToken: string,
                                        detailsOf: Json -> Json, unescape: string -> string)
    requires i <= |jobs|
    requires Fetched(jobs[..i], term, boardToken, detailsOf, unescape).None?
    ensures Fetched(jobs, term, boardToken, detailsOf, unescape).None?
    decreases |jobs| - i
  {
    if i < |jobs| {
      FetchedStep(jobs, i, term, boardToken, detailsOf, unescape);
      FetchedFails(jobs, i + 1, term, boardToken, detailsOf, unescape);
    } else {
      assert jobs[..i] == jobs;
    }
  }

  /** The file `save_jobs_to_json` writes; the timestamp is a parameter. */
  function Envelope(jobs: seq<Json>, boardToken: string, fetchedAt: string): (r: Json)
    ensures r.Obj? && Keys(r.fields) == ["fetched_at", "total_jobs", "board_token", "jobs"]
  {
    Obj(Record(["fetched_at", "total_jobs", "board_token", "jobs"],
               [Str(fetchedAt), Int(|jobs|), Str(boardToken), Arr(jobs)]))
  }

  /** The envelope counts the jobs and holds them unchanged. */
  lemma EnvelopeCounts(jobs: seq<Json>, boardToken: string, fetchedAt: string)
    ensures Lookup(Envelope(jobs, boardToken, fetchedAt).fields, "total_jobs") == Some(Int(|jobs|))
    ensures Lookup(Envelope(jobs, boardToken, fetchedAt).fields, "jobs") == Some(Arr(jobs))
  {
    var keys := ["fetched_at", "total_jobs", "board_token", "jobs"];
    var values := [Str(fetchedAt), Int(|jobs|), Str(boardToken), Arr(jobs)];
    LookupRecord(keys, values, 1);
    LookupRecord(keys, values, 3);
  }
}
