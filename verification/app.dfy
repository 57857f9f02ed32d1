/** The helpers and fallbacks of the Streamlit front end (app/main.py):
    selecting the top two portfolio links from a query result, removing
    `Subject:` lines from a generated e-mail, and the defaults for a job's
    title, its skills and the recipient address. */
module App {
  import opened Wrappers
  import opened Text
  import opened Seqs
  import opened PyValue
  import Portfolio
  import Skills
  import Chains

  // ---------------------------------------------------------------------
  // format_portfolio_links
  // ---------------------------------------------------------------------

  /** `meta['links']` when `meta` is a dictionary holding a string under
      'links'. */
  function LinkOf(meta: Value): (r: Option<string>)
    ensures r.Some? <==> meta.VDict? && HasKey(meta.entries, "links") && Get(meta.entries, "links").value.VStr?
    ensures r.Some? ==> Get(meta.entries, "links") == Some(VStr(r.value))
  {
    match meta
    case VDict(d) =>
      var links: Option<Value> := Get(d, "links");
      (match links
       case Some(VStr(link)) => Some(link)
       case _ => None)
    case _ => None
  }

  /** The string links of one metadata list, in order. */
  function MetaLinks(metas: seq<Value>): (r: seq<string>)
    ensures |r| <= |metas|
    ensures forall j :: 0 <= j < |metas| && LinkOf(metas[j]).Some? ==> LinkOf(metas[j]).value in r
    ensures forall i :: 0 <= i < |r| ==> exists j :: 0 <= j < |metas| && LinkOf(metas[j]) == Some(r[i])
    decreases |metas|
  {
    if |metas| == 0 then []
    else
      var rest := MetaLinks(metas[1..]);
      assert forall j :: 1 <= j < |metas| ==> metas[j] == metas[1..][j - 1];
      match LinkOf(metas[0])
      case Some(link) => [link] + rest
      case None => rest
  }

  /** The flattening loop of `format_portfolio_links`. */
  function FlattenLinks(results: seq<seq<Value>>): seq<string>
    decreases |results|
  {
    if |results| == 0 then [] else MetaLinks(results[0]) + FlattenLinks(results[1..])
  }

  /** The flattened list holds exactly the string links of all metadata. */
  lemma {:induction false} FlattenLinksMembers(results: seq<seq<Value>>, x: string)
    ensures x in FlattenLinks(results) <==>
              exists m, j :: 0 <= m < |results| && 0 <= j < |results[m]| && LinkOf(results[m][j]) == Some(x)
    decreases |results|
  {
    if |results| > 0 {
      FlattenLinksMembers(results[1..], x);
      if x in MetaLinks(results[0]) {
        var i :| 0 <= i < |MetaLinks(results[0])| && MetaLinks(results[0])[i] == x;
        var j :| 0 <= j < |results[0]| && LinkOf(results[0][j]) == Some(x);
        assert LinkOf(results[0][j]) == Some(x);
      }
      if exists m, j :: 0 <= m < |results| && 0 <= j < |results[m]| && LinkOf(results[m][j]) == Some(x) {
        var m, j :| 0 <= m < |results| && 0 <= j < |results[m]| && LinkOf(results[m][j]) == Some(x);
        if m > 0 {
          assert results[1..][m - 1] == results[m];
        }
      }
      if exists m, j :: 0 <= m < |results[1..]| && 0 <= j < |results[1..][m]| && LinkOf(results[1..][m][j]) == Some(x) {
        var m, j :| 0 <= m < |results[1..]| && 0 <= j < |results[1..][m]| && LinkOf(results[1..][m][j]) == Some(x);
        assert results[m + 1][j] == results[1..][m][j];
      }
    }
  }

  /** `format_portfolio_links`: the first two string links, fewer when there
      are fewer, never padded. */
  function FormatPortfolioLinks(results: seq<seq<Value>>): (r: seq<string>)
    ensures |r| == if |FlattenLinks(results)| < 2 then |FlattenLinks(results)| else 2
    ensures r == FlattenLinks(results)[..|r|]
    ensures |results| == 0 ==> r == []
  {
    var flat := FlattenLinks(results);
    if |results| == 0 then []
    else if |flat| == 0 then []
    else flat[..if |flat| < 2 then |flat| else 2]
  }

  /** Applied to what `query_links` returns, the selection is the first two
      string links of the nearest entries' metadata, or nothing when the query
      failed or found no usable skill. */
  lemma FormatQueryLinks(skills: Value, description: Value, encode: Portfolio.Encoder, search: Portfolio.Search)
    ensures var q := Portfolio.QueryLinks(skills, description, encode, search);
            var r := FormatPortfolioLinks(q);
            (q == [] ==> r == []) &&
            (|q| == 1 ==> |r| == (if |MetaLinks(q[0])| < 2 then |MetaLinks(q[0])| else 2) && r == MetaLinks(q[0])[..|r|])
  {
    FormatAtMostOne(Portfolio.QueryLinks(skills, description, encode, search));
  }

  lemma FormatAtMostOne(q: seq<seq<Value>>)
    requires |q| <= 1
    ensures var r := FormatPortfolioLinks(q);
            (q == [] ==> r == []) &&
            (|q| == 1 ==> |r| == (if |MetaLinks(q[0])| < 2 then |MetaLinks(q[0])| else 2) && r == MetaLinks(q[0])[..|r|])
  {
    if |q| == 1 {
      assert q == [q[0]];
      FlattenSingle(q[0]);
    }
  }

  lemma FlattenSingle(metas: seq<Value>)
    ensures FlattenLinks([metas]) == MetaLinks(metas)
  {
    assert [metas][1..] == [];
  }

  /** Nothing removes repeated links: two entries with the same link give
      that link twice. */
  lemma FormatKeepsRepeats(m: Value)
    requires LinkOf(m).Some?
    ensures FormatPortfolioLinks([[m, m]]) == [LinkOf(m).value, LinkOf(m).value]
  {
    FlattenSingle([m, m]);
    assert [m, m][1..] == [m];
    assert MetaLinks([m]) == [LinkOf(m).value] by {
      assert [m][1..] == [];
    }
  }

  /** An empty string is a link like any other. */
  lemma EmptyLinkKept()
    ensures LinkOf(VDict([("links", VStr(""))])) == Some("")
  {
    GetFirst([("links", VStr(""))], "links", 0);
  }

  // ---------------------------------------------------------------------
  // send_email: removal of Subject lines
  // ---------------------------------------------------------------------

  /** A line as `re.MULTILINE` sees it: non-empty, with a newline at most as
      its last character. */
  predicate IsLine(l: string) {
    |l| > 0 && forall j :: 0 <= j < |l| - 1 ==> l[j] != '\n'
  }

  predicate EndsWithNewline(l: string) {
    |l| > 0 && l[|l| - 1] == '\n'
  }

  /** Lines that concatenate back into a text: only the last may lack its
      newline. */
  predicate WellFormedLines(ls: seq<string>) {
    && (forall i :: 0 <= i < |ls| ==> IsLine(ls[i]))
    && (forall i :: 0 <= i < |ls| - 1 ==> EndsWithNewline(ls[i]))
  }

  /** The lines of a text, each with its newline. */
  function Lines(s: string): (r: seq<string>)
    ensures Flatten(r) == s
    ensures WellFormedLines(r)
    decreases |s|
  {
    if |s| == 0 then []
    else
      var k := IndexOf(s, '\n');
      if k == |s| then [s]
      else
        var rest := Lines(s[k + 1..]);
        assert s == s[..k + 1] + s[k + 1..];
        assert ([s[..k + 1]] + rest)[1..] == rest;
        [s[..k + 1]] + rest
  }

  /** The first newline of a line followed by more text is its own. */
  lemma LineEnd(l: string, rest: string)
    requires IsLine(l) && EndsWithNewline(l)
    ensures IndexOf(l + rest, '\n') == |l| - 1
  {
    Skills.IndexOfFirst(l + rest, '\n', |l| - 1);
  }

  /** Splitting well-formed lines after joining them gives them back. */
  lemma {:induction false} LinesFlatten(ls: seq<string>)
    requires WellFormedLines(ls)
    ensures Lines(Flatten(ls)) == ls
    decreases |ls|
  {
    if |ls| > 0 {
      var l := ls[0];
      var rest := Flatten(ls[1..]);
      var s := Flatten(ls);
      assert s == l + rest;
      if EndsWithNewline(l) {
        LineEnd(l, rest);
        assert s[..|l|] == l;
        assert s[|l|..] == rest;
        if |ls| == 1 {
          assert rest == [];
        } else {
          LinesFlatten(ls[1..]);
        }
        assert ls == [l] + ls[1..];
      } else {
        assert |ls| == 1;
        assert rest == [];
        assert s == l;
      }
    }
  }

  /** Dropping lines keeps the rest well formed: a kept line without a
      newline was the last line and stays the last. */
  lemma {:induction false} FilterLines(p: string -> bool, ls: seq<string>)
    requires WellFormedLines(ls)
    ensures WellFormedLines(Filter(p, ls))
    decreases |ls|
  {
    if |ls| > 0 {
      FilterLines(p, ls[1..]);
      if |ls| == 1 {
        assert Filter(p, ls[1..]) == [];
      }
    }
  }

  /** A character of `"subject:"` under `re.IGNORECASE`: ASCII case is folded
      and the long s (U+017F) matches 's'. */
  predicate SubjectCharAt(c: char, i: int)
    requires 0 <= i < 8
  {
    LowerChar(c) == "subject:"[i] || (i == 0 && c == 'ſ')
  }

  /** A line `^Subject:.*$` matches. */
  predicate IsSubjectLine(l: string) {
    |l| >= 8 && forall i :: 0 <= i < 8 ==> SubjectCharAt(l[i], i)
  }

  predicate KeptLine(l: string) {
    !IsSubjectLine(l)
  }

  /** `re.sub(r'^Subject:.*$\n?', '', body, flags=re.MULTILINE | re.IGNORECASE)` */
  function RemoveSubjectLines(body: string): (r: string)
    ensures Lines(r) == Filter(KeptLine, Lines(body))
  {
    FilterLines(KeptLine, Lines(body));
    LinesFlatten(Filter(KeptLine, Lines(body)));
    Flatten(Filter(KeptLine, Lines(body)))
  }

  /** The cleaned body of `send_email`: Subject lines removed, then stripped. */
  function CleanBody(body: string): (r: string)
    ensures Trimmed(r)
    ensures exists p, q :: RemoveSubjectLines(body) == p + r + q && AllSpace(p) && AllSpace(q)
    ensures r == [] <==> AllSpace(RemoveSubjectLines(body))
  {
    StripFrame(RemoveSubjectLines(body));
    StripEmpty(RemoveSubjectLines(body));
    Strip(RemoveSubjectLines(body))
  }

  /** The lines left are exactly the body's non-Subject lines, in order. */
  lemma RemoveSubjectLinesKeeps(body: string)
    ensures Lines(RemoveSubjectLines(body)) == Filter(KeptLine, Lines(body))
    ensures forall i :: 0 <= i < |Lines(RemoveSubjectLines(body))| ==> !IsSubjectLine(Lines(RemoveSubjectLines(body))[i])
  {
    FilterLines(KeptLine, Lines(body));
    LinesFlatten(Filter(KeptLine, Lines(body)));
  }

  /** A body without Subject lines is only stripped. */
  lemma NoSubjectUnchanged(body: string)
    requires forall i :: 0 <= i < |Lines(body)| ==> !IsSubjectLine(Lines(body)[i])
    ensures RemoveSubjectLines(body) == body
    ensures CleanBody(body) == Strip(body)
  {
    FilterAll(KeptLine, Lines(body));
  }

  /** Removing Subject lines a second time changes nothing. */
  lemma RemoveSubjectLinesIdempotent(body: string)
    ensures RemoveSubjectLines(RemoveSubjectLines(body)) == RemoveSubjectLines(body)
  {
    RemoveSubjectLinesKeeps(body);
    NoSubjectUnchanged(RemoveSubjectLines(body));
  }

  // ---------------------------------------------------------------------
  // Fallbacks for the manually extracted job
  // ---------------------------------------------------------------------

  /** The title fallback: an empty title is replaced by the role if there is
      one, otherwise by "Job from <url>". `None` when the extracted job is not
      a dictionary (`.get` raises). */
  function TitleFallback(job: Value, url: string): (r: Option<Dict>)
    ensures r.Some? <==> job.VDict?
    ensures r.Some? ==> HasKey(r.value, "title") && Truthy(Get(r.value, "title").value)
    ensures r.Some? && Truthy(GetOr(job.entries, "title", VNone)) ==> r.value == job.entries
    ensures r.Some? && !Truthy(GetOr(job.entries, "title", VNone)) && Truthy(GetOr(job.entries, "role", VNone)) ==>
              Get(r.value, "title") == Get(job.entries, "role")
    ensures r.Some? && !Truthy(GetOr(job.entries, "title", VNone)) && !Truthy(GetOr(job.entries, "role", VNone)) ==>
              Get(r.value, "title") == Some(VStr("Job from " + url))
    ensures r.Some? ==> forall k :: k != "title" ==> Get(r.value, k) == Get(job.entries, k)
  {
    match job
    case VDict(d) =>
      var title := GetOr(d, "title", VNone);
      var role := GetOr(d, "role", VNone);
      if Truthy(title) then Some(d)
      else if Truthy(role) then Some(Put(d, "title", role))
      else Some(Put(d, "title", VStr("Job from " + url)))
    case _ => None
  }

  /** Applying the fallback again changes nothing. */
  lemma TitleFallbackIdempotent(job: Value, url: string, url2: string)
    requires job.VDict?
    ensures TitleFallback(VDict(TitleFallback(job, url).value), url2) == TitleFallback(job, url)
  {
  }

  /** The skills used when none are found. */
  const DefaultSkills: seq<Value> := [VStr("software development"), VStr("data engineering")]

  /** The skills fallback of both forms: the job's skills if truthy,
      otherwise the model's fallback answer if it parsed to something truthy
      (`None` when parsing raised), otherwise the two default skills. */
  function ChooseSkills(initial: Value, fallback: Option<Value>): (r: Value)
    ensures Truthy(r)
    ensures Truthy(initial) ==> r == initial
    ensures !Truthy(initial) && fallback.Some? && Truthy(fallback.value) ==> r == fallback.value
    ensures !Truthy(initial) && (fallback.None? || !Truthy(fallback.value)) ==> r == VList(DefaultSkills)
  {
    if Truthy(initial) then initial
    else
      var skills := match fallback case Some(v) => v case None => VList([]);
      if Truthy(skills) then skills else VList(DefaultSkills)
  }

  /** The fallback answer is only consulted when the job has no skills. */
  lemma ChooseSkillsIgnoresFallback(initial: Value, f1: Option<Value>, f2: Option<Value>)
    requires Truthy(initial)
    ensures ChooseSkills(initial, f1) == ChooseSkills(initial, f2) == initial
  {
  }

  /** The default skills reach the portfolio query as two usable skills. */
  lemma DefaultSkillsQueried()
    ensures Portfolio.ValidSkills(VList(DefaultSkills)) == Some(["software development", "data engineering"])
  {
    DefaultSkillStrings();
    KeptSkills("software development", "data engineering");
  }

  lemma DefaultSkillStrings()
    ensures Map(Str, DefaultSkills) == ["software development", "data engineering"]
  {
    var m := Map(Str, DefaultSkills);
    assert m[0] == "software development";
    assert m[1] == "data engineering";
  }

  /** Two trimmed non-blank skills are kept as they are. */
  lemma KeptSkills(a: string, b: string)
    requires |a| > 0 && Trimmed(a) && |b| > 0 && Trimmed(b)
    ensures Skills.CleanSkills([a, b]) == [a, b]
  {
    assert [a, b] == [a] + [b];
    Skills.CleanSkillsConcat([a], [b]);
    KeptSkill(a);
    KeptSkill(b);
  }

  /** A trimmed non-blank skill is kept as it is. */
  lemma KeptSkill(x: string)
    requires |x| > 0 && Trimmed(x)
    ensures Skills.CleanSkills([x]) == [x]
  {
    Skills.StripSpacePrefix("", x);
    assert "" + x == x;
    assert !AllSpace(x);
    Skills.CleanSkillsOne(x);
  }

  /** The initial skills of the manual form: `job_data.get('skills', [])`. */
  function ManualInitialSkills(job: Dict): (r: Value)
    ensures HasKey(job, "skills") ==> r == Get(job, "skills").value
    ensures !HasKey(job, "skills") ==> r == VList([]) && !Truthy(r)
  {
    GetOr(job, "skills", VList([]))
  }

  /** The initial skills of the batch form: the first extracted job's
      skills, or [] when nothing was extracted; `None` when that first job is
      not a dictionary. */
  function BatchInitialSkills(extracted: seq<Value>): (r: Option<Value>)
    ensures |extracted| == 0 ==> r == Some(VList([]))
    ensures r.None? <==> |extracted| > 0 && !extracted[0].VDict?
  {
    if |extracted| == 0 then Some(VList([]))
    else
      match extracted[0]
      case VDict(d) => Some(GetOr(d, "skills", VList([])))
      case _ => None
  }

  // ---------------------------------------------------------------------
  // Recipients
  // ---------------------------------------------------------------------

  const PersonalEmail: string := "dimplecs8530@gmail.com"

  /** `comp.get('recruiting_email', 'dimplecs8530@gmail.com')` */
  function EmailOf(comp: Dict): Value {
    GetOr(comp, "recruiting_email", VStr(PersonalEmail))
  }

  /** A company record: a dictionary with a name (`comp['name']` raises
      otherwise). */
  predicate IsCompany(comp: Value) {
    comp.VDict? && HasKey(comp.entries, "name")
  }

  /** The string name of a company record, if it has one. */
  function NameOf(comp: Value): Option<string>
    requires IsCompany(comp)
  {
    match Get(comp.entries, "name").value
    case VStr(n) => Some(n)
    case _ => None
  }

  /** The e-mail the last record named `n` gives, if any. */
  function LastEmail(companies: seq<Value>, n: string): Option<Value>
    requires forall i :: 0 <= i < |companies| ==> IsCompany(companies[i])
    decreases |companies|
  {
    if |companies| == 0 then None
    else
      match LastEmail(companies[1..], n)
      case Some(e) => Some(e)
      case None => if NameOf(companies[0]) == Some(n) then Some(EmailOf(companies[0].entries)) else None
  }

  /** The dictionary comprehension building `company_emails`, continuing
      from `acc`; later records overwrite earlier ones. */
  function EmailsFrom(acc: Assoc<Value>, companies: seq<Value>): (r: Assoc<Value>)
    requires forall i :: 0 <= i < |companies| ==> IsCompany(companies[i])
    decreases |companies|
  {
    if |companies| == 0 then acc
    else
      var comp := companies[0];
      var acc' := match NameOf(comp) case Some(n) => Put(acc, n, EmailOf(comp.entries)) case None => acc;
      EmailsFrom(acc', companies[1..])
  }

  /** A name the comprehension can use as a key: lists and dictionaries are
      unhashable (TypeError). */
  predicate HashableName(comp: Value)
    requires IsCompany(comp)
  {
    var name := Get(comp.entries, "name").value;
    !name.VList? && !name.VDict?
  }

  /** A record the comprehension accepts. */
  predicate IsKeyedCompany(comp: Value) {
    IsCompany(comp) && HashableName(comp)
  }

  /** `company_emails`; `None` when some record is not a dictionary with a
      name, or its name is unhashable. */
  function CompanyEmails(companies: seq<Value>): (r: Option<Assoc<Value>>)
    ensures r.Some? <==> forall i :: 0 <= i < |companies| ==> IsKeyedCompany(companies[i])
    ensures r.Some? ==> forall n :: Get(r.value, n) == LastEmail(companies, n)
  {
    if forall i :: 0 <= i < |companies| ==> IsKeyedCompany(companies[i]) then
      assert forall n :: Get(EmailsFrom([], companies), n) == LastEmail(companies, n) by {
        forall n { EmailsFromGet([], companies, n); }
      }
      Some(EmailsFrom([], companies))
    else None
  }

  /** Looking a company up finds the e-mail of its last record. */
  lemma {:induction false} EmailsFromGet(acc: Assoc<Value>, companies: seq<Value>, n: string)
    requires forall i :: 0 <= i < |companies| ==> IsCompany(companies[i])
    ensures Get(EmailsFrom(acc, companies), n) ==
              match LastEmail(companies, n) case Some(e) => Some(e) case None => Get(acc, n)
    decreases |companies|
  {
    if |companies| > 0 {
      var comp := companies[0];
      var acc' := match NameOf(comp) case Some(m) => Put(acc, m, EmailOf(comp.entries)) case None => acc;
      EmailsFromGet(acc', companies[1..], n);
    }
  }

  /** `company_emails.get(selected_company, 'dimplecs8530@gmail.com')` */
  function BatchRecipient(emails: Assoc<Value>, company: string): (r: Value)
    ensures HasKey(emails, company) ==> r == Get(emails, company).value
    ensures !HasKey(emails, company) ==> r == VStr(PersonalEmail)
  {
    GetOr(emails, company, VStr(PersonalEmail))
  }

  /** A company without a record, or whose last record has no recruiting
      e-mail, is written to the personal address. */
  lemma BatchRecipientDefault(companies: seq<Value>, company: string)
    requires CompanyEmails(companies).Some?
    ensures LastEmail(companies, company).None? ==>
              BatchRecipient(CompanyEmails(companies).value, company) == VStr(PersonalEmail)
    ensures LastEmail(companies, company).Some? ==>
              BatchRecipient(CompanyEmails(companies).value, company) == LastEmail(companies, company).value
  {
    EmailsFromGet([], companies, company);
  }

  /** The record of the last company with a name, without a recruiting
      e-mail, gives the personal address. */
  lemma LastEmailDefault(companies: seq<Value>, j: int, n: string)
    requires forall i :: 0 <= i < |companies| ==> IsCompany(companies[i])
    requires 0 <= j < |companies| && NameOf(companies[j]) == Some(n)
    requires !HasKey(companies[j].entries, "recruiting_email")
    requires forall i :: j < i < |companies| ==> NameOf(companies[i]) != Some(n)
    ensures LastEmail(companies, n) == Some(VStr(PersonalEmail))
  {
    LastEmailAt(companies, j, n);
  }

  lemma {:induction false} LastEmailAt(companies: seq<Value>, j: int, n: string)
    requires forall i :: 0 <= i < |companies| ==> IsCompany(companies[i])
    requires 0 <= j < |companies| && NameOf(companies[j]) == Some(n)
    requires forall i :: j < i < |companies| ==> NameOf(companies[i]) != Some(n)
    ensures LastEmail(companies, n) == Some(EmailOf(companies[j].entries))
    decreases |companies|
  {
    if j > 0 {
      LastEmailAt(companies[1..], j - 1, n);
    } else {
      LastEmailNone(companies[1..], n);
    }
  }

  lemma {:induction false} LastEmailNone(companies: seq<Value>, n: string)
    requires forall i :: 0 <= i < |companies| ==> IsCompany(companies[i])
    requires forall i :: 0 <= i < |companies| ==> NameOf(companies[i]) != Some(n)
    ensures LastEmail(companies, n).None?
    decreases |companies|
  {
    if |companies| > 0 {
      LastEmailNone(companies[1..], n);
    }
  }

  /** The fixed recruiting addresses of the manual form. */
  const RecruitingEmails: Assoc<string> :=
    [ ("Apple", "applecareers@apple.com"),
      ("Walmart", "talentacquisition@walmart.com"),
      ("Amazon", "hiring@amazon.com"),
      ("UnitedHealth Group", "Investor_Relations@uhc.com"),
      ("Unknown", "recruiting@example.com") ]

  const FallbackRecruiting: string := "recruiting@example.com"

  /** The recipient choices of the manual form: the company's recruiting
      address (the fallback one for any other company) and the personal one.
      `None` when the company name is a list or dictionary, which cannot be
      looked up. */
  function ManualRecipientOptions(job: Dict): (r: Option<seq<string>>)
    ensures r.Some? ==> |r.value| == 2 && r.value[1] == PersonalEmail
    ensures r.None? <==> GetOr(job, "company_name", VStr("Unknown")).VList? || GetOr(job, "company_name", VStr("Unknown")).VDict?
  {
    match GetOr(job, "company_name", VStr("Unknown"))
    case VStr(n) => Some([GetOr(RecruitingEmails, n, FallbackRecruiting), PersonalEmail])
    case VList(_) => None
    case VDict(_) => None
    case _ => Some([FallbackRecruiting, PersonalEmail])
  }

  /** Only the four named companies get an address of their own; every other
      name, a missing one included, gets the fallback address. */
  lemma ManualRecipientFallback(job: Dict)
    requires ManualRecipientOptions(job).Some?
    ensures var name := GetOr(job, "company_name", VStr("Unknown"));
            !(name.VStr? && name.s in ["Apple", "Walmart", "Amazon", "UnitedHealth Group"]) ==>
              ManualRecipientOptions(job).value[0] == FallbackRecruiting
    ensures !HasKey(job, "company_name") ==> ManualRecipientOptions(job).value[0] == FallbackRecruiting
    ensures GetOr(job, "company_name", VStr("Unknown")) == VStr("Apple") ==>
              ManualRecipientOptions(job).value[0] == "applecareers@apple.com"
  {
    var name := GetOr(job, "company_name", VStr("Unknown"));
    if name.VStr? && name.s !in ["Apple", "Walmart", "Amazon", "UnitedHealth Group"] {
      RecruitingOther(name.s);
    }
  }

  /** Every name but the four listed companies finds the fallback address
      in the recruiting table, "Unknown" through its own entry. */
  lemma RecruitingOther(n: string)
    requires n !in ["Apple", "Walmart", "Amazon", "UnitedHealth Group"]
    ensures GetOr(RecruitingEmails, n, FallbackRecruiting) == FallbackRecruiting
  {
    var d := RecruitingEmails;
    var names := ["Apple", "Walmart", "Amazon", "UnitedHealth Group"];
    assert n != names[0] && n != names[1] && n != names[2] && n != names[3];
    var d1, d2, d3, d4 := d[1..], d[2..], d[3..], d[4..];
    assert d1[1..] == d2 && d2[1..] == d3 && d3[1..] == d4;
    GetSkip(d, n); GetSkip(d1, n); GetSkip(d2, n); GetSkip(d3, n);
    if n != "Unknown" {
      GetSkip(d4, n);
      assert d4[1..] == [];
    }
  }

  // ---------------------------------------------------------------------
  // The two e-mail flows
  // ---------------------------------------------------------------------

  /** The portfolio links for a job: the top two links of the query on the
      chosen skills and the job's description. */
  function LinksFor(skills: Value, job: Dict, encode: Portfolio.Encoder, search: Portfolio.Search): (r: seq<string>)
    ensures |r| <= 2
  {
    FormatPortfolioLinks(Portfolio.QueryLinks(skills, GetOr(job, "description", VStr("")), encode, search))
  }

  /** How the manual flow ends. */
  datatype ManualResult =
    | NoJobData                       // the model extracted no job
    | Raised                          // an exception, shown as an error
    | Generated(job: Dict, links: seq<string>, skills: Value, mail: Chains.Mail)

  /** The manual flow of the form: extract jobs from the page text (`parsed`
      is the parser's result on the model's answer), take the first, fill in
      its title, choose its skills (`fallback` is the parsed answer to the
      skills prompt), query the portfolio and generate the e-mail. */
  function ManualFlow(url: string, parsed: Option<Value>, fallback: Option<Value>,
                      encode: Portfolio.Encoder, search: Portfolio.Search,
                      llm: Chains.PromptInputs -> string): (r: ManualResult)
    ensures r.NoJobData? <==> Chains.ExtractJobs(parsed) == []
    ensures r.Generated? ==>
              && HasKey(r.job, "title") && Truthy(Get(r.job, "title").value)
              && Truthy(r.skills)
              && |r.links| <= 2
              && r.mail.log.totalLinks == |r.links|
              && r.mail.log.includedLinks <= |r.links|
    ensures r.Raised? ==> |Chains.ExtractJobs(parsed)| > 0
    ensures |Chains.ExtractJobs(parsed)| > 0 && !Chains.ExtractJobs(parsed)[0].VDict? ==> r.Raised?
  {
    var jobs := Chains.ExtractJobs(parsed);
    if |jobs| == 0 then NoJobData
    else
      match TitleFallback(jobs[0], url)
      case None => Raised
      case Some(job) =>
        var skills := ChooseSkills(ManualInitialSkills(job), fallback);
        var links := LinksFor(skills, job, encode, search);
        match Chains.GenerateMail(job, links, skills, llm)
        case None => Raised
        case Some(mail) => Generated(job, links, skills, mail)
  }

  /** A job whose extracted skills are all strings always gets its e-mail:
      the only exception left in the flow is the join over non-strings. */
  lemma ManualFlowGenerates(url: string, parsed: Option<Value>, fallback: Option<Value>,
                            encode: Portfolio.Encoder, search: Portfolio.Search,
                            llm: Chains.PromptInputs -> string)
    requires |Chains.ExtractJobs(parsed)| > 0 && Chains.ExtractJobs(parsed)[0].VDict?
    requires var job := Chains.ExtractJobs(parsed)[0].entries;
             var skills := GetOr(job, "skills", VList([]));
             skills.VList? && |skills.items| > 0 && AllStr(skills.items)
    ensures ManualFlow(url, parsed, fallback, encode, search, llm).Generated?
    ensures ManualFlow(url, parsed, fallback, encode, search, llm).skills ==
              GetOr(Chains.ExtractJobs(parsed)[0].entries, "skills", VList([]))
  {
    var d := Chains.ExtractJobs(parsed)[0].entries;
    ManualSkillsKept(d, url, fallback);
    assert Chains.SkillsStr(GetOr(d, "skills", VList([]))).Some?;
  }

  /** The title fallback leaves a non-empty list of string skills in place,
      and the flow then queries and writes with exactly those. */
  lemma ManualSkillsKept(d: Dict, url: string, fallback: Option<Value>)
    requires var skills := GetOr(d, "skills", VList([]));
             skills.VList? && |skills.items| > 0 && AllStr(skills.items)
    ensures ChooseSkills(ManualInitialSkills(TitleFallback(VDict(d), url).value), fallback) == GetOr(d, "skills", VList([]))
  {
    var job := TitleFallback(VDict(d), url).value;
    assert Get(job, "skills") == Get(d, "skills");
    var skills := ManualInitialSkills(job);
    assert skills == GetOr(d, "skills", VList([])) && Truthy(skills);
  }

  /** What the batch flow prepares for the selected cached job: the chosen
      skills, the top links, the generated e-mail (`None` when generation
      raises) and the recipient. `None` when the first extracted job is not
      a dictionary, which stops the page. */
  datatype BatchPlan = BatchPlan(skills: Value, links: seq<string>, mail: Option<Chains.Mail>, recipient: Value)

  function BatchFlow(job: Dict, company: string, emails: Assoc<Value>,
                     parsed: Option<Value>, fallback: Option<Value>,
                     encode: Portfolio.Encoder, search: Portfolio.Search,
                     llm: Chains.PromptInputs -> string): (r: Option<BatchPlan>)
    ensures r.None? <==> |Chains.ExtractJobs(parsed)| > 0 && !Chains.ExtractJobs(parsed)[0].VDict?
    ensures r.Some? ==> Truthy(r.value.skills) && |r.value.links| <= 2
    ensures r.Some? ==> r.value.recipient == GetOr(emails, company, VStr(PersonalEmail))
    ensures r.Some? && r.value.mail.Some? ==> r.value.mail.value.log.totalLinks == |r.value.links|
  {
    match BatchInitialSkills(Chains.ExtractJobs(parsed))
    case None => None
    case Some(initial) =>
      var skills := ChooseSkills(initial, fallback);
      var links := LinksFor(skills, job, encode, search);
      Some(BatchPlan(skills, links, Chains.GenerateMail(job, links, skills, llm), BatchRecipient(emails, company)))
  }

  /** When the model extracts nothing and the skills prompt gives nothing
      usable, the batch flow queries the portfolio with the default skills. */
  lemma BatchFlowDefaults(job: Dict, company: string, emails: Assoc<Value>,
                          fallback: Option<Value>,
                          encode: Portfolio.Encoder, search: Portfolio.Search,
                          llm: Chains.PromptInputs -> string)
    requires fallback.None? || !Truthy(fallback.value)
    ensures BatchFlow(job, company, emails, None, fallback, encode, search, llm).Some?
    ensures BatchFlow(job, company, emails, None, fallback, encode, search, llm).value.skills == VList(DefaultSkills)
  {
  }
}
