/** The job preprocessing of app/preprocess.py: which cached job records
    become documents for the vector store, how their skills field is turned
    into one string, the metadata every document carries, and the coercion
    of that metadata to values the store accepts. The sanitizer, the text
    splitter and the embedding store are parameters or left out. */
module Preprocess {
  import opened Wrappers
  import opened Text
  import opened Seqs
  import opened PyValue
  import opened Skills
  import Scraper

  // ---------------------------------------------------------------------
  // simplify_metadata
  // ---------------------------------------------------------------------

  /** One metadata value made storable: a str, int, float or bool stays, any
      other value becomes its `str()` form. */
  function SimplifyValue(v: Value): (r: Value)
    ensures IsScalar(r)
    ensures IsScalar(v) ==> r == v
    ensures !IsScalar(v) ==> r == VStr(Str(v))
  {
    if IsScalar(v) then v else VStr(Str(v))
  }

  /** `simplify_metadata(metadata)` */
  function SimplifyMetadata(m: Dict): (r: Dict)
    ensures Keys(r) == Keys(m)
    ensures forall i :: 0 <= i < |r| ==> IsScalar(r[i].1)
  {
    seq(|m|, i requires 0 <= i < |m| => (m[i].0, SimplifyValue(m[i].1)))
  }

  /** Looking a key up in the simplified metadata gives the simplified value
      of the same lookup in the original. */
  lemma {:induction false} SimplifyGet(m: Dict, k: string)
    ensures Get(SimplifyMetadata(m), k).Some? <==> Get(m, k).Some?
    ensures Get(m, k).Some? ==> Get(SimplifyMetadata(m), k) == Some(SimplifyValue(Get(m, k).value))
  {
    if |m| > 0 {
      assert SimplifyMetadata(m)[1..] == SimplifyMetadata(m[1..]);
      SimplifyGet(m[1..], k);
    }
  }

  /** Simplifying twice is simplifying once. */
  lemma SimplifyIdempotent(m: Dict)
    ensures SimplifyMetadata(SimplifyMetadata(m)) == SimplifyMetadata(m)
  {
  }

  /** The scraper's row coercion and `simplify_metadata` agree on every row
      without a None value; on None they differ ("" against "None"). */
  lemma SimplifyAgreesWithCoerce(m: Dict)
    requires forall i :: 0 <= i < |m| ==> !m[i].1.VNone?
    ensures SimplifyMetadata(m) == Scraper.CoerceRow(m)
    ensures SimplifyValue(VNone) == VStr("None") && Scraper.CoerceValue(VNone) == VStr("")
  {
  }

  // ---------------------------------------------------------------------
  // The skills field
  // ---------------------------------------------------------------------

  /** What the program raises. */
  datatype Error =
    | AttributeError   // `.get` called on a job entry that is not a dictionary
    | TypeError        // `", ".join` over a list holding a non-string
    | ValueError       // the cache is neither a dictionary nor a list
    | LibraryError     // raised by the text splitter, the embedding model or the vector store

  const DefaultSkill: string := "software development"

  /** `skills_str` from `job.get('skills', '')`: a string is split on commas
      and cleaned, a falsy non-string becomes the default skill, a list is
      joined with ", ", anything else is printed with `str()`. */
  function SkillsString(skills: Value): (r: Result<string, Error>)
    ensures r.Failure? <==> skills.VList? && |skills.items| > 0 && !AllStr(skills.items)
    ensures r.Failure? ==> r.error == TypeError
    ensures skills.VStr? ==> r.Success? && SplitSkills(r.value) == SplitSkills(skills.s)
    ensures !skills.VStr? && !Truthy(skills) ==> r == Success(DefaultSkill)
    ensures skills.VList? && |skills.items| > 0 && AllStr(skills.items) ==> r == Success(JoinSkills(Strs(skills.items)))
    ensures !skills.VStr? && !skills.VList? && Truthy(skills) ==> r == Success(Str(skills))
  {
    match skills
    case VStr(s) =>
      var cleaned := SplitSkills(s);
      SplitSkillsJoin(cleaned);
      Success(JoinSkills(cleaned))
    case VList(items) =>
      if |items| == 0 then Success(JoinSkills([DefaultSkill]))
      else if AllStr(items) then Success(JoinSkills(Strs(items)))
      else Failure(TypeError)
    case _ =>
      if !Truthy(skills) then Success(JoinSkills([DefaultSkill])) else Success(Str(skills))
  }

  /** A job without a skills key stores an empty skills string, not the
      default skill: the default of `get` is the empty string. */
  lemma MissingSkillsEmpty(job: Dict)
    requires !HasKey(job, "skills")
    ensures SkillsString(GetOr(job, "skills", VStr(""))) == Success("")
  {
    SplitSkillsJoin([]);
    assert SplitSkills("") == [] by {
      assert Split("", ',') == [""];
      CleanSkillsOne("");
    }
  }

  /** A string field is stored as its cleaned skills joined by ", ". */
  lemma SkillsStringOfString(s: string)
    ensures SkillsString(VStr(s)) == Success(JoinSkills(SplitSkills(s)))
    ensures forall i :: 0 <= i < |SplitSkills(s)| ==> IsSkill(SplitSkills(s)[i])
  {
  }

  // ---------------------------------------------------------------------
  // Per-job validation and metadata
  // ---------------------------------------------------------------------

  /** Where a job was read from: under a company key of the batch cache, or
      from the flat list of the manual cache. */
  datatype Origin = Keyed(company: string) | Listed

  datatype Document = Document(content: string, metadata: Dict)

  datatype SkipReason =
    | JobsNotList
    | JobNotDict
    | InvalidTitle
    | InvalidDescription
    | EmptyAfterCleaning

  /** A skipped-job log entry: company, title, reason. */
  datatype Skip = Skip(company: string, title: Value, reason: SkipReason)

  datatype JobOutcome = Kept(doc: Document) | Skipped(skip: Skip)

  /** The company a skip entry names: the key, or "Unknown" for the list form. */
  function SkipCompany(o: Origin): string {
    match o
    case Keyed(c) => c
    case Listed => "Unknown"
  }

  /** The company stored in the metadata: the key, or `str(job.get('company',
      'Unknown'))` for the list form. */
  function MetadataCompany(o: Origin, job: Dict): string {
    match o
    case Keyed(c) => c
    case Listed => Str(GetOr(job, "company", VStr("Unknown")))
  }

  /** The five metadata fields of a document. */
  function JobMetadata(o: Origin, job: Dict, skills: string): (m: Dict)
    ensures Keys(m) == ["company", "title", "url", "experience", "skills"]
  {
    [ ("company", VStr(MetadataCompany(o, job))),
      ("title", GetOr(job, "title", VStr(""))),
      ("url", VStr(Str(GetOr(job, "job_url", VStr(""))))),
      ("experience", VStr(Str(GetOr(job, "experience", VStr("Not specified"))))),
      ("skills", VStr(skills)) ]
  }

  /** In a five-field record whose keys have five different lengths, each
      key finds its own field. */
  lemma LookupFive<V>(m: Assoc<V>, k0: string, k1: string, k2: string, k3: string, k4: string)
    requires |m| == 5 && m[0].0 == k0 && m[1].0 == k1 && m[2].0 == k2 && m[3].0 == k3 && m[4].0 == k4
    requires |k0| != |k1| && |k0| != |k2| && |k0| != |k3| && |k0| != |k4|
    requires |k1| != |k2| && |k1| != |k3| && |k1| != |k4|
    requires |k2| != |k3| && |k2| != |k4| && |k3| != |k4|
    ensures Get(m, k0) == Some(m[0].1) && Get(m, k1) == Some(m[1].1)
    ensures Get(m, k2) == Some(m[2].1) && Get(m, k3) == Some(m[3].1)
    ensures Get(m, k4) == Some(m[4].1)
  {
    var m1, m2, m3, m4 := m[1..], m[2..], m[3..], m[4..];
    assert m1[0] == m[1] && m2[0] == m[2] && m3[0] == m[3] && m4[0] == m[4];
    assert m1[1..] == m2 && m2[1..] == m3 && m3[1..] == m4;
    GetSkip(m, k1); GetSkip(m, k2); GetSkip(m, k3); GetSkip(m, k4);
    GetSkip(m1, k2); GetSkip(m1, k3); GetSkip(m1, k4);
    GetSkip(m2, k3); GetSkip(m2, k4);
    GetSkip(m3, k4);
  }

  /** Each metadata key finds its own field. */
  lemma MetadataLookups(m: Dict)
    requires Keys(m) == ["company", "title", "url", "experience", "skills"]
    ensures Get(m, "company") == Some(m[0].1) && Get(m, "title") == Some(m[1].1)
    ensures Get(m, "url") == Some(m[2].1) && Get(m, "experience") == Some(m[3].1)
    ensures Get(m, "skills") == Some(m[4].1)
  {
    var ks := Keys(m);
    assert ks[0] == m[0].0 && ks[1] == m[1].0 && ks[2] == m[2].0 && ks[3] == m[3].0 && ks[4] == m[4].0;
    LookupFive(m, "company", "title", "url", "experience", "skills");
  }

  /** The defaults of the metadata: no url gives "", no experience gives
      "Not specified", and the company is the key, or the job's own company
      field, or "Unknown". */
  lemma MetadataDefaults(o: Origin, job: Dict, skills: string)
    ensures !HasKey(job, "job_url") ==> Get(JobMetadata(o, job, skills), "url") == Some(VStr(""))
    ensures !HasKey(job, "experience") ==>
              Get(JobMetadata(o, job, skills), "experience") == Some(VStr("Not specified"))
    ensures o.Keyed? ==> Get(JobMetadata(o, job, skills), "company") == Some(VStr(o.company))
    ensures o.Listed? && !HasKey(job, "company") ==>
              Get(JobMetadata(o, job, skills), "company") == Some(VStr("Unknown"))
    ensures Get(JobMetadata(o, job, skills), "skills") == Some(VStr(skills))
  {
    var m := JobMetadata(o, job, skills);
    MetadataLookups(m);
    assert Str(VStr("")) == "" && Str(VStr("Not specified")) == "Not specified";
    assert Str(VStr("Unknown")) == "Unknown";
  }

  /** The title stored is the job's own title. */
  lemma MetadataTitle(o: Origin, job: Dict, skills: string)
    requires HasKey(job, "title")
    ensures Get(JobMetadata(o, job, skills), "title") == Some(Get(job, "title").value)
  {
    MetadataLookups(JobMetadata(o, job, skills));
  }

  function Title(job: Dict): Value {
    GetOr(job, "title", VNone)
  }

  function Description(job: Dict): Value {
    GetOr(job, "description", VNone)
  }

  /** The three checks a job must pass to become a document. */
  predicate Accepted(job: Dict, sanitize: string -> Value) {
    && IsNonEmptyStr(Title(job))
    && IsNonEmptyStr(Description(job))
    && IsNonEmptyStr(sanitize(Description(job).s))
  }

  /** A kept document has content and a non-empty string title. */
  predicate GoodDoc(d: Document) {
    |d.content| > 0 && HasKey(d.metadata, "title") && IsNonEmptyStr(Get(d.metadata, "title").value)
  }

  predicate GoodDocs(docs: seq<Document>) {
    forall k :: 0 <= k < |docs| ==> GoodDoc(docs[k])
  }

  /** One job of either loop. */
  function ProcessJob(o: Origin, job: Value, sanitize: string -> Value): (r: Result<JobOutcome, Error>)
    ensures !job.VDict? ==> r == Failure(AttributeError)
    ensures job.VDict? ==>
              (r.Failure? <==> Accepted(job.entries, sanitize) && SkillsString(GetOr(job.entries, "skills", VStr(""))).Failure?)
    ensures r.Failure? ==> r.error == AttributeError || r.error == TypeError
    ensures r.Success? && r.value.Kept? <==> job.VDict? && Accepted(job.entries, sanitize) && r.Success?
    ensures r.Success? && r.value.Kept? ==>
              VStr(r.value.doc.content) == sanitize(Description(job.entries).s) && GoodDoc(r.value.doc)
    ensures r.Success? && r.value.Kept? ==> Get(r.value.doc.metadata, "title") == Some(Title(job.entries))
    ensures r.Success? && r.value.Kept? ==>
              r.value.doc.metadata == JobMetadata(o, job.entries, SkillsString(GetOr(job.entries, "skills", VStr(""))).value)
  {
    match job
    case VDict(d) =>
      var skipTitle := GetOr(d, "title", VStr("Unknown"));
      if !IsNonEmptyStr(Title(d)) then Success(Skipped(Skip(SkipCompany(o), skipTitle, InvalidTitle)))
      else if !IsNonEmptyStr(Description(d)) then Success(Skipped(Skip(SkipCompany(o), skipTitle, InvalidDescription)))
      else
        var cleaned := sanitize(Description(d).s);
        if !IsNonEmptyStr(cleaned) then Success(Skipped(Skip(SkipCompany(o), skipTitle, EmptyAfterCleaning)))
        else
          (match SkillsString(GetOr(d, "skills", VStr("")))
           case Failure(e) => Failure(e)
           case Success(skills) =>
             MetadataTitle(o, d, skills);
             Success(Kept(Document(cleaned.s, JobMetadata(o, d, skills)))))
    case _ => Failure(AttributeError)
  }

  /** The documents and skip entries gathered so far. */
  datatype Collected = Collected(docs: seq<Document>, skipped: seq<Skip>)

  function Add(c: Collected, out: JobOutcome): (r: Collected)
    ensures |r.docs| + |r.skipped| == |c.docs| + |c.skipped| + 1
    ensures c.docs <= r.docs && c.skipped <= r.skipped
    ensures GoodDocs(c.docs) && (out.Kept? ==> GoodDoc(out.doc)) ==> GoodDocs(r.docs)
  {
    match out
    case Kept(doc) => Collected(c.docs + [doc], c.skipped)
    case Skipped(s) => Collected(c.docs, c.skipped + [s])
  }

  /** `for job in jobs: ...` appended to what was collected before; the first
      job that raises ends the whole call. */
  function ProcessJobs(o: Origin, jobs: seq<Value>, sanitize: string -> Value, acc: Collected)
    : (r: Result<Collected, Error>)
    ensures r.Failure? ==> r.error == AttributeError || r.error == TypeError
    ensures r.Success? ==> |r.value.docs| + |r.value.skipped| == |acc.docs| + |acc.skipped| + |jobs|
    ensures r.Success? ==> acc.docs <= r.value.docs && acc.skipped <= r.value.skipped
    ensures r.Success? && GoodDocs(acc.docs) ==> GoodDocs(r.value.docs)
    decreases |jobs|
  {
    if |jobs| == 0 then Success(acc)
    else
      match ProcessJob(o, jobs[0], sanitize)
      case Failure(e) => Failure(e)
      case Success(out) => ProcessJobs(o, jobs[1..], sanitize, Add(acc, out))
  }

  /** The loop completes exactly when no single job raises. */
  lemma {:induction false} ProcessJobsSucceeds(o: Origin, jobs: seq<Value>, sanitize: string -> Value, acc: Collected)
    ensures ProcessJobs(o, jobs, sanitize, acc).Success? <==>
              forall i :: 0 <= i < |jobs| ==> ProcessJob(o, jobs[i], sanitize).Success?
    decreases |jobs|
  {
    if |jobs| > 0 {
      match ProcessJob(o, jobs[0], sanitize)
      case Failure(_) =>
      case Success(out) =>
        ProcessJobsSucceeds(o, jobs[1..], sanitize, Add(acc, out));
        assert forall i :: 1 <= i < |jobs| ==> jobs[i] == jobs[1..][i - 1];
    }
  }

  /** Two collections one after the other. */
  function Join(a: Collected, b: Collected): Collected {
    Collected(a.docs + b.docs, a.skipped + b.skipped)
  }

  /** Joining is associative. */
  lemma JoinAssoc(a: Collected, b: Collected, c: Collected)
    ensures Join(Join(a, b), c) == Join(a, Join(b, c))
    ensures Join(a, Collected([], [])) == a
  {
  }

  /** What one job contributes when it does not raise: its document if it
      is kept, its skip entry otherwise. */
  function JobCollected(o: Origin, job: Value, sanitize: string -> Value): Collected {
    match ProcessJob(o, job, sanitize)
    case Success(Kept(d)) => Collected([d], [])
    case Success(Skipped(k)) => Collected([], [k])
    case Failure(_) => Collected([], [])
  }

  /** Reference collection of a job list: each job's contribution, in job
      order. */
  function JobsCollected(o: Origin, jobs: seq<Value>, sanitize: string -> Value): Collected
    decreases |jobs|
  {
    if |jobs| == 0 then Collected([], [])
    else Join(JobCollected(o, jobs[0], sanitize), JobsCollected(o, jobs[1..], sanitize))
  }

  /** One step of `JobsCollected`. */
  lemma JobsCollectedStep(o: Origin, jobs: seq<Value>, sanitize: string -> Value)
    requires |jobs| > 0
    ensures JobsCollected(o, jobs, sanitize) == Join(JobCollected(o, jobs[0], sanitize), JobsCollected(o, jobs[1..], sanitize))
  {
  }

  /** Adding an outcome appends exactly that job's contribution. */
  lemma AddCollected(o: Origin, job: Value, sanitize: string -> Value, acc: Collected)
    requires ProcessJob(o, job, sanitize).Success?
    ensures Add(acc, ProcessJob(o, job, sanitize).value) == Join(acc, JobCollected(o, job, sanitize))
  {
  }

  /** A loop over one job adds that job's outcome, or raises its error. */
  lemma ProcessJobsOne(o: Origin, job: Value, sanitize: string -> Value, acc: Collected)
    ensures var r := ProcessJob(o, job, sanitize);
            ProcessJobs(o, [job], sanitize, acc) == if r.Success? then Success(Add(acc, r.value)) else Failure(r.error)
  {
    assert [job][0] == job && [job][1..] == [];
  }

  /** The loop over `a + b` is the loop over `a`, then over `b` from what
      it collected; an error in `a` ends it before `b`. */
  lemma {:induction false} ProcessJobsConcat(o: Origin, a: seq<Value>, b: seq<Value>, sanitize: string -> Value, acc: Collected)
    ensures var r := ProcessJobs(o, a, sanitize, acc);
            ProcessJobs(o, a + b, sanitize, acc) == if r.Success? then ProcessJobs(o, b, sanitize, r.value) else r
    decreases |a|
  {
    if |a| == 0 {
      assert a + b == b;
    } else {
      HeadTailConcat(a, b);
      match ProcessJob(o, a[0], sanitize)
      case Failure(_) =>
      case Success(out) => ProcessJobsConcat(o, a[1..], b, sanitize, Add(acc, out));
    }
  }

  /** A completed loop appended exactly the reference collection: every
      kept job's document and every skipped job's entry, in job order. */
  lemma {:induction false} ProcessJobsCollects(o: Origin, jobs: seq<Value>, sanitize: string -> Value, acc: Collected)
    ensures ProcessJobs(o, jobs, sanitize, acc).Success? ==>
              ProcessJobs(o, jobs, sanitize, acc).value == Join(acc, JobsCollected(o, jobs, sanitize))
    decreases |jobs|
  {
    if |jobs| == 0 {
      JoinAssoc(acc, acc, acc);
    } else {
      var out := ProcessJob(o, jobs[0], sanitize);
      if out.Success? {
        var x, y := JobCollected(o, jobs[0], sanitize), JobsCollected(o, jobs[1..], sanitize);
        ProcessJobsCollects(o, jobs[1..], sanitize, Add(acc, out.value));
        AddCollected(o, jobs[0], sanitize, acc);
        JobsCollectedStep(o, jobs, sanitize);
        JoinAssoc(acc, x, y);
      }
    }
  }

  /** The reference collection of `a + b` is that of `a`, then that of `b`. */
  lemma {:induction false} JobsCollectedConcat(o: Origin, a: seq<Value>, b: seq<Value>, sanitize: string -> Value)
    ensures JobsCollected(o, a + b, sanitize) == Join(JobsCollected(o, a, sanitize), JobsCollected(o, b, sanitize))
    decreases |a|
  {
    if |a| == 0 {
      assert a + b == b;
      JoinAssoc(JobsCollected(o, b, sanitize), JobsCollected(o, b, sanitize), JobsCollected(o, b, sanitize));
      assert Join(Collected([], []), JobsCollected(o, b, sanitize)) == JobsCollected(o, b, sanitize);
    } else {
      HeadTailConcat(a, b);
      JobsCollectedConcat(o, a[1..], b, sanitize);
      JobsCollectedStep(o, a + b, sanitize);
      JobsCollectedStep(o, a, sanitize);
      JoinAssoc(JobCollected(o, a[0], sanitize), JobsCollected(o, a[1..], sanitize), JobsCollected(o, b, sanitize));
    }
  }

  /** The number of entries the batch form logs for a company: one per job
      of a list, one skip entry otherwise. */
  function JobsLogged(jobs: Value): nat {
    if jobs.VList? then |jobs.items| else 1
  }

  function TotalLogged(entries: seq<(string, Value)>): nat
    decreases |entries|
  {
    if |entries| == 0 then 0 else JobsLogged(entries[0].1) + TotalLogged(entries[1..])
  }

  /** The skip entry of a company whose jobs are not a list. */
  function NotListSkip(company: string): Skip {
    Skip(company, VStr("Unknown"), JobsNotList)
  }

  /** The outer loop of the batch form: a company whose jobs are not a list
      is logged and skipped. */
  function ProcessCompanies(entries: seq<(string, Value)>, sanitize: string -> Value, acc: Collected)
    : (r: Result<Collected, Error>)
    ensures r.Failure? ==> r.error == AttributeError || r.error == TypeError
    ensures r.Success? && GoodDocs(acc.docs) ==> GoodDocs(r.value.docs)
    ensures r.Success? ==>
              |r.value.docs| + |r.value.skipped| == |acc.docs| + |acc.skipped| + TotalLogged(entries)
    ensures r.Success? ==> acc.docs <= r.value.docs && acc.skipped <= r.value.skipped
    ensures r.Success? ==>
              forall i :: 0 <= i < |entries| && !entries[i].1.VList? ==> NotListSkip(entries[i].0) in r.value.skipped
    decreases |entries|
  {
    if |entries| == 0 then Success(acc)
    else
      var (company, jobs) := entries[0];
      if !jobs.VList? then
        var acc' := Collected(acc.docs, acc.skipped + [NotListSkip(company)]);
        var r := ProcessCompanies(entries[1..], sanitize, acc');
        assert r.Success? ==> NotListSkip(company) in r.value.skipped by {
          if r.Success? {
            assert acc'.skipped[|acc.skipped|] == NotListSkip(company);
            assert r.value.skipped[|acc.skipped|] == NotListSkip(company);
          }
        }
        assert forall i :: 1 <= i < |entries| ==> entries[i] == entries[1..][i - 1];
        r
      else
        match ProcessJobs(Keyed(company), jobs.items, sanitize, acc)
        case Failure(e) => Failure(e)
        case Success(c) =>
          assert forall i :: 1 <= i < |entries| ==> entries[i] == entries[1..][i - 1];
          ProcessCompanies(entries[1..], sanitize, c)
  }

  /** Every job of a company whose jobs are a list is processed for it. */
  predicate CompanyJobsSucceed(entry: (string, Value), sanitize: string -> Value) {
    entry.1.VList? ==>
      forall j :: 0 <= j < |entry.1.items| ==> ProcessJob(Keyed(entry.0), entry.1.items[j], sanitize).Success?
  }

  /** The batch form completes exactly when no single job of a listed
      company raises. */
  lemma {:induction false} ProcessCompaniesSucceeds(entries: seq<(string, Value)>, sanitize: string -> Value, acc: Collected)
    ensures ProcessCompanies(entries, sanitize, acc).Success? <==>
              forall i :: 0 <= i < |entries| ==> CompanyJobsSucceed(entries[i], sanitize)
    decreases |entries|
  {
    if |entries| > 0 {
      var (company, jobs) := entries[0];
      assert forall i :: 1 <= i < |entries| ==> entries[i] == entries[1..][i - 1];
      if !jobs.VList? {
        ProcessCompaniesSucceeds(entries[1..], sanitize,
                                 Collected(acc.docs, acc.skipped + [NotListSkip(company)]));
      } else {
        ProcessJobsSucceeds(Keyed(company), jobs.items, sanitize, acc);
        match ProcessJobs(Keyed(company), jobs.items, sanitize, acc)
        case Failure(_) =>
        case Success(c) => ProcessCompaniesSucceeds(entries[1..], sanitize, c);
      }
    }
  }

  /** What one company contributes to the batch form when none of its
      jobs raises. */
  function CompanyCollected(entry: (string, Value), sanitize: string -> Value): Collected {
    if entry.1.VList? then JobsCollected(Keyed(entry.0), entry.1.items, sanitize)
    else Collected([], [NotListSkip(entry.0)])
  }

  /** Reference collection of the batch form: each company's contribution,
      in cache order. */
  function CompaniesCollected(entries: seq<(string, Value)>, sanitize: string -> Value): Collected
    decreases |entries|
  {
    if |entries| == 0 then Collected([], [])
    else Join(CompanyCollected(entries[0], sanitize), CompaniesCollected(entries[1..], sanitize))
  }

  /** One step of `CompaniesCollected`. */
  lemma CompaniesCollectedStep(entries: seq<(string, Value)>, sanitize: string -> Value)
    requires |entries| > 0
    ensures CompaniesCollected(entries, sanitize) ==
              Join(CompanyCollected(entries[0], sanitize), CompaniesCollected(entries[1..], sanitize))
  {
  }

  /** The reference collection of `a + b` is that of `a`, then that of `b`. */
  lemma {:induction false} CompaniesCollectedConcat(a: seq<(string, Value)>, b: seq<(string, Value)>, sanitize: string -> Value)
    ensures CompaniesCollected(a + b, sanitize) == Join(CompaniesCollected(a, sanitize), CompaniesCollected(b, sanitize))
    decreases |a|
  {
    if |a| == 0 {
      assert a + b == b;
      assert Join(Collected([], []), CompaniesCollected(b, sanitize)) == CompaniesCollected(b, sanitize);
    } else {
      HeadTailConcat(a, b);
      CompaniesCollectedConcat(a[1..], b, sanitize);
      CompaniesCollectedStep(a + b, sanitize);
      CompaniesCollectedStep(a, sanitize);
      JoinAssoc(CompanyCollected(a[0], sanitize), CompaniesCollected(a[1..], sanitize), CompaniesCollected(b, sanitize));
    }
  }

  /** The batch form over one company: its skip entry when its jobs are
      not a list, else the job loop for it. */
  lemma ProcessCompaniesOne(entry: (string, Value), sanitize: string -> Value, acc: Collected)
    ensures ProcessCompanies([entry], sanitize, acc) ==
              if entry.1.VList? then ProcessJobs(Keyed(entry.0), entry.1.items, sanitize, acc)
              else Success(Collected(acc.docs, acc.skipped + [NotListSkip(entry.0)]))
  {
    assert [entry][0] == entry && [entry][1..] == [];
  }

  /** The batch form over `a + b` is the one over `a`, then the one over
      `b` from what it collected. */
  lemma {:induction false} ProcessCompaniesConcat(a: seq<(string, Value)>, b: seq<(string, Value)>,
                                                  sanitize: string -> Value, acc: Collected)
    ensures var r := ProcessCompanies(a, sanitize, acc);
            ProcessCompanies(a + b, sanitize, acc) == if r.Success? then ProcessCompanies(b, sanitize, r.value) else r
    decreases |a|
  {
    if |a| == 0 {
      assert a + b == b;
    } else {
      HeadTailConcat(a, b);
      var (company, jobs) := a[0];
      if !jobs.VList? {
        ProcessCompaniesConcat(a[1..], b, sanitize, Collected(acc.docs, acc.skipped + [NotListSkip(company)]));
      } else {
        match ProcessJobs(Keyed(company), jobs.items, sanitize, acc)
        case Failure(_) =>
        case Success(c) => ProcessCompaniesConcat(a[1..], b, sanitize, c);
      }
    }
  }

  /** A completed batch form appended exactly the reference collection. */
  lemma {:induction false} ProcessCompaniesCollects(entries: seq<(string, Value)>, sanitize: string -> Value, acc: Collected)
    ensures ProcessCompanies(entries, sanitize, acc).Success? ==>
              ProcessCompanies(entries, sanitize, acc).value == Join(acc, CompaniesCollected(entries, sanitize))
    decreases |entries|
  {
    if |entries| == 0 {
      JoinAssoc(acc, acc, acc);
    } else {
      var (company, jobs) := entries[0];
      var x, y := CompanyCollected(entries[0], sanitize), CompaniesCollected(entries[1..], sanitize);
      assert CompaniesCollected(entries, sanitize) == Join(x, y);
      JoinAssoc(acc, x, y);
      if !jobs.VList? {
        var acc' := Collected(acc.docs, acc.skipped + [NotListSkip(company)]);
        ProcessCompaniesCollects(entries[1..], sanitize, acc');
        assert acc' == Join(acc, x);
      } else {
        var c := ProcessJobs(Keyed(company), jobs.items, sanitize, acc);
        if c.Success? {
          ProcessJobsCollects(Keyed(company), jobs.items, sanitize, acc);
          ProcessCompaniesCollects(entries[1..], sanitize, c.value);
        }
      }
    }
  }

  const Empty: Collected := Collected([], [])

  /** The document collection of `preprocess_and_embed`: the batch cache
      (a dictionary of companies) or the manual cache (a list of jobs); any
      other JSON value is a ValueError. */
  function CollectDocuments(cache: Value, sanitize: string -> Value): (r: Result<Collected, Error>)
    ensures r == Failure(ValueError) <==> !(cache.VDict? || cache.VList?)
    ensures r.Failure? ==> r.error != LibraryError
    ensures r.Success? ==> GoodDocs(r.value.docs)
    ensures cache.VList? ==> r.Success? ==> |r.value.docs| + |r.value.skipped| == |cache.items|
    ensures cache.VDict? ==> r.Success? ==> |r.value.docs| + |r.value.skipped| == TotalLogged(cache.entries)
    ensures cache.VList? ==> r.Success? ==> r.value == JobsCollected(Listed, cache.items, sanitize)
    ensures cache.VDict? ==> r.Success? ==> r.value == CompaniesCollected(cache.entries, sanitize)
  {
    match cache
    case VDict(entries) =>
      ProcessCompaniesCollects(entries, sanitize, Empty);
      ProcessCompanies(entries, sanitize, Empty)
    case VList(jobs) =>
      ProcessJobsCollects(Listed, jobs, sanitize, Empty);
      ProcessJobs(Listed, jobs, sanitize, Empty)
    case _ => Failure(ValueError)
  }

  /** The list form over one job: that job's contribution, or its error. */
  lemma CollectDocumentsOne(job: Value, sanitize: string -> Value)
    ensures var r := ProcessJob(Listed, job, sanitize);
            CollectDocuments(VList([job]), sanitize) ==
              if r.Success? then Success(JobCollected(Listed, job, sanitize)) else Failure(r.error)
  {
    ProcessJobsOne(Listed, job, sanitize, Empty);
    if ProcessJob(Listed, job, sanitize).Success? {
      var x := JobCollected(Listed, job, sanitize);
      AddCollected(Listed, job, sanitize, Empty);
      assert Join(Empty, x) == x;
    }
  }

  /** The list form over `a + b` completes iff it completes over each part,
      and then collects the part of `a` followed by the part of `b`. */
  lemma CollectListConcat(a: seq<Value>, b: seq<Value>, sanitize: string -> Value)
    ensures var r, ra, rb := CollectDocuments(VList(a + b), sanitize), CollectDocuments(VList(a), sanitize),
                             CollectDocuments(VList(b), sanitize);
            (r.Success? <==> ra.Success? && rb.Success?) && (r.Success? ==> r.value == Join(ra.value, rb.value))
  {
    var ra := CollectDocuments(VList(a), sanitize);
    ProcessJobsConcat(Listed, a, b, sanitize, Empty);
    ProcessJobsSucceeds(Listed, b, sanitize, Empty);
    if ra.Success? {
      ProcessJobsSucceeds(Listed, b, sanitize, ra.value);
      ProcessJobsCollects(Listed, b, sanitize, ra.value);
    }
  }

  /** The same for the batch form over the companies `a + b`. */
  lemma CollectDictConcat(a: seq<(string, Value)>, b: seq<(string, Value)>, sanitize: string -> Value)
    ensures var r, ra, rb := CollectDocuments(VDict(a + b), sanitize), CollectDocuments(VDict(a), sanitize),
                             CollectDocuments(VDict(b), sanitize);
            (r.Success? <==> ra.Success? && rb.Success?) && (r.Success? ==> r.value == Join(ra.value, rb.value))
  {
    var ra := CollectDocuments(VDict(a), sanitize);
    ProcessCompaniesConcat(a, b, sanitize, Empty);
    ProcessCompaniesSucceeds(b, sanitize, Empty);
    if ra.Success? {
      ProcessCompaniesSucceeds(b, sanitize, ra.value);
      ProcessCompaniesCollects(b, sanitize, ra.value);
    }
  }

  /** A job entry of the list form that is not a dictionary makes the whole
      call raise: the skip branch itself calls `.get` on it. */
  lemma NonDictJobRaises(jobs: seq<Value>, i: int, sanitize: string -> Value)
    requires 0 <= i < |jobs| && !jobs[i].VDict?
    ensures CollectDocuments(VList(jobs), sanitize).Failure?
  {
    ProcessJobsSucceeds(Listed, jobs, sanitize, Empty);
  }

  /** The same holds for a job of the batch form: a company's job that is
      not a dictionary makes the whole call raise. */
  lemma NonDictCompanyJobRaises(entries: seq<(string, Value)>, i: int, j: int, sanitize: string -> Value)
    requires 0 <= i < |entries| && entries[i].1.VList?
    requires 0 <= j < |entries[i].1.items| && !entries[i].1.items[j].VDict?
    ensures CollectDocuments(VDict(entries), sanitize).Failure?
  {
    ProcessCompaniesSucceeds(entries, sanitize, Empty);
    assert !CompanyJobsSucceed(entries[i], sanitize);
  }

  // ---------------------------------------------------------------------
  // preprocess_and_embed
  // ---------------------------------------------------------------------

  /** How a call ends when it does not raise. */
  datatype Outcome =
    | NoValidJobs(skipped: seq<Skip>)   // nothing to split: return before the splitter
    | NoValidSplits                     // the splitter produced no document
    | Embedded(chunks: seq<Document>)   // handed to the vector store

  /** The splits that are documents, in order. */
  function Documents(splits: seq<Option<Document>>): (r: seq<Document>)
    ensures |r| <= |splits|
    ensures forall k :: 0 <= k < |r| ==> Some(r[k]) in splits
    ensures forall k :: 0 <= k < |splits| && splits[k].Some? ==> splits[k].value in r
  {
    if |splits| == 0 then []
    else
      var rest := Documents(splits[1..]);
      assert forall k :: 1 <= k < |splits| ==> splits[k] == splits[1..][k - 1];
      match splits[0]
      case Some(d) => [d] + rest
      case None => rest
  }

  /** Dropping the non-documents keeps the order: the documents of two
      runs of splits are the documents of each, one after the other. */
  lemma {:induction false} DocumentsConcat(a: seq<Option<Document>>, b: seq<Option<Document>>)
    ensures Documents(a + b) == Documents(a) + Documents(b)
    decreases |a|
  {
    if |a| == 0 {
      assert a + b == b;
    } else {
      assert (a + b)[1..] == a[1..] + b;
      DocumentsConcat(a[1..], b);
    }
  }

  function SimplifyDocument(d: Document): Document {
    Document(d.content, SimplifyMetadata(d.metadata))
  }

  /** The text splitter: the splits of the documents, a split that is not
      a document being `None`, or `None` altogether when it raises. */
  type Splitter = seq<Document> -> Option<seq<Option<Document>>>

  /** The embedding model and the vector store: whether embedding and
      storing the chunks completes without raising. */
  type Store = seq<Document> -> bool

  /** `preprocess_and_embed` with the sanitizer, the text splitter and the
      store as parameters. */
  function PreprocessAndEmbed(cache: Value, sanitize: string -> Value, split: Splitter, store: Store)
    : (r: Result<Outcome, Error>)
    ensures var c := CollectDocuments(cache, sanitize);
            c.Failure? ==> r == Failure(c.error)
    ensures r.Failure? && r.error != LibraryError ==>
              CollectDocuments(cache, sanitize).Failure? && r.error == CollectDocuments(cache, sanitize).error
    ensures r.Success? && r.value.NoValidJobs? <==>
              CollectDocuments(cache, sanitize).Success? && |CollectDocuments(cache, sanitize).value.docs| == 0
    ensures var c := CollectDocuments(cache, sanitize);
            r == Failure(LibraryError) <==>
              c.Success? && |c.value.docs| > 0 &&
              (split(c.value.docs).None? ||
               (|Documents(split(c.value.docs).value)| > 0 &&
                !store(Map(SimplifyDocument, Documents(split(c.value.docs).value)))))
    ensures var c := CollectDocuments(cache, sanitize);
            r.Success? && r.value.NoValidSplits? <==>
              c.Success? && |c.value.docs| > 0 && split(c.value.docs).Some? && |Documents(split(c.value.docs).value)| == 0
    ensures r.Success? && r.value.Embedded? ==>
              var c := CollectDocuments(cache, sanitize);
              c.Success? && split(c.value.docs).Some? &&
              var valid := Documents(split(c.value.docs).value);
              store(r.value.chunks) && |r.value.chunks| == |valid| > 0 &&
              forall k :: 0 <= k < |valid| ==>
                r.value.chunks[k].content == valid[k].content &&
                r.value.chunks[k].metadata == SimplifyMetadata(valid[k].metadata)
    ensures r.Success? && r.value.Embedded? ==>
              forall k :: 0 <= k < |r.value.chunks| ==>
                forall j :: 0 <= j < |r.value.chunks[k].metadata| ==> IsScalar(r.value.chunks[k].metadata[j].1)
  {
    match CollectDocuments(cache, sanitize)
    case Failure(e) => Failure(e)
    case Success(c) =>
      if |c.docs| == 0 then Success(NoValidJobs(c.skipped))
      else
        match split(c.docs)
        case None => Failure(LibraryError)
        case Some(splits) =>
          var valid := Documents(splits);
          if |valid| == 0 then Success(NoValidSplits)
          else
            var chunks := Map(SimplifyDocument, valid);
            if store(chunks) then Success(Embedded(chunks)) else Failure(LibraryError)
  }

  /** When no job survives the filter neither the splitter nor the store is
      consulted: the outcome is the same whatever they would have done. */
  lemma NoJobsNoSplit(cache: Value, sanitize: string -> Value, split1: Splitter, split2: Splitter,
                      store1: Store, store2: Store)
    requires CollectDocuments(cache, sanitize).Success?
    requires |CollectDocuments(cache, sanitize).value.docs| == 0
    ensures PreprocessAndEmbed(cache, sanitize, split1, store1) == PreprocessAndEmbed(cache, sanitize, split2, store2)
    ensures PreprocessAndEmbed(cache, sanitize, split1, store1).value.NoValidJobs?
  {
  }
}
