/** The deterministic parts of the language-model chain of app/chains.py:
    the acceptance of the job-extraction answer, the prompt inputs of the
    cold e-mail (skills string and link slots), the capitalised-keyword
    scan of the job text and the count of links the reply includes. The
    model's answers are parameters. */
module Chains {
  import opened Wrappers
  import opened Text
  import opened Seqs
  import opened PyValue
  import opened Skills

  // ---------------------------------------------------------------------
  // extract_jobs
  // ---------------------------------------------------------------------

  /** `extract_jobs` given the parser's result on the model's answer (`None`
      when parsing raises): the parsed value if it is a non-empty list,
      otherwise the empty list. */
  function ExtractJobs(parsed: Option<Value>): (r: seq<Value>)
    ensures |r| > 0 <==> parsed.Some? && parsed.value.VList? && |parsed.value.items| > 0
    ensures |r| > 0 ==> parsed == Some(VList(r))
    ensures parsed.None? ==> r == []
  {
    match parsed
    case Some(VList(items)) => if |items| > 0 then items else []
    case _ => []
  }

  // ---------------------------------------------------------------------
  // generate_mail: prompt inputs
  // ---------------------------------------------------------------------

  /** `", ".join(skills) if skills and isinstance(skills, list) else ""`;
      `None` when the list holds a non-string (the join raises). */
  function SkillsStr(skills: Value): (r: Option<string>)
    ensures r.None? <==> skills.VList? && |skills.items| > 0 && !AllStr(skills.items)
    ensures !skills.VList? || |skills.items| == 0 ==> r == Some("")
    ensures skills.VList? && |skills.items| > 0 && AllStr(skills.items) ==>
              r == Some(JoinSkills(Strs(skills.items)))
  {
    match skills
    case VList(items) =>
      if |items| == 0 then Some("")
      else if AllStr(items) then Some(JoinSkills(Strs(items)))
      else None
    case _ => Some("")
  }

  /** A list of well-formed skills can be read back from its skills string. */
  lemma SkillsStrRoundTrip(skills: seq<string>)
    requires |skills| > 0
    requires forall i :: 0 <= i < |skills| ==> IsSkill(skills[i])
    ensures SplitSkills(SkillsStr(VList(Map(ToVStr, skills))).value) == skills
  {
    var vs := Map(ToVStr, skills);
    assert AllStr(vs);
    assert Strs(vs) == skills;
    assert SkillsStr(VList(vs)) == Some(JoinSkills(skills));
    SplitSkillsJoin(skills);
  }

  function ToVStr(s: string): Value {
    VStr(s)
  }

  /** The link inputs of the e-mail prompt. */
  datatype LinkSlots = LinkSlots(link1: string, link2: string, linkList: string)

  /** `link1`, `link2` and `link_list` */
  function Slots(links: seq<string>): (r: LinkSlots)
    ensures |links| >= 1 ==> r.link1 == links[0]
    ensures |links| == 0 ==> r.link1 == ""
    ensures |links| >= 2 ==> r.link2 == links[1]
    ensures |links| < 2 ==> r.link2 == ""
    ensures |links| == 0 ==> r.linkList == ""
    ensures |links| > 0 ==> r.linkList == JoinSkills(links)
  {
    LinkSlots(
      if |links| >= 1 then links[0] else "",
      if |links| >= 2 then links[1] else "",
      if |links| > 0 then JoinSkills(links) else "")
  }

  /** The list of at most two non-empty links that a pair of slots stands for. */
  function LinksOfSlots(r: LinkSlots): seq<string> {
    (if r.link1 == "" then [] else [r.link1]) + (if r.link2 == "" then [] else [r.link2])
  }

  /** With the at most two links `format_portfolio_links` hands over the three
      slots agree: the slots give the links back and the list is their join. */
  lemma SlotsConsistent(links: seq<string>)
    requires |links| <= 2
    requires forall i :: 0 <= i < |links| ==> links[i] != ""
    ensures LinksOfSlots(Slots(links)) == links
    ensures |links| == 1 ==> Slots(links).linkList == Slots(links).link1
    ensures |links| == 2 ==> Slots(links).linkList == Slots(links).link1 + ", " + Slots(links).link2
  {
    if |links| == 2 {
      assert links == [links[0], links[1]];
      JoinCons(", ", links[0], links[1..]);
    }
  }

  // ---------------------------------------------------------------------
  // generate_mail: included links
  // ---------------------------------------------------------------------

  /** `sum(1 for link in links if link in reply)` */
  function IncludedLinksCount(links: seq<string>, reply: string): (n: nat)
    ensures n <= |links|
    ensures n == |links| <==> forall i :: 0 <= i < |links| ==> Contains(reply, links[i])
    ensures n == 0 <==> forall i :: 0 <= i < |links| ==> !Contains(reply, links[i])
    decreases |links|
  {
    if |links| == 0 then 0
    else
      var rest := IncludedLinksCount(links[1..], reply);
      assert forall i :: 1 <= i < |links| ==> links[i] == links[1..][i - 1];
      (if Contains(reply, links[0]) then 1 else 0) + rest
  }

  /** Counting is additive over a split of the link list. */
  lemma {:induction false} IncludedLinksConcat(a: seq<string>, b: seq<string>, reply: string)
    ensures IncludedLinksCount(a + b, reply) == IncludedLinksCount(a, reply) + IncludedLinksCount(b, reply)
    decreases |a|
  {
    if |a| > 0 {
      assert (a + b)[1..] == a[1..] + b;
      IncludedLinksConcat(a[1..], b, reply);
    } else {
      assert a + b == b;
    }
  }

  // ---------------------------------------------------------------------
  // generate_mail: job keywords
  // ---------------------------------------------------------------------

  /** Length of the run at the start of `s` of characters satisfying `p`. */
  function RunLength(s: string, p: char -> bool): (n: nat)
    ensures n <= |s|
    ensures forall i :: 0 <= i < n ==> p(s[i])
    ensures n < |s| ==> !p(s[n])
    decreases |s|
  {
    if |s| == 0 || !p(s[0]) then 0 else 1 + RunLength(s[1..], p)
  }

  /** A word `\b[A-Z][a-z]{3,}\b` can match: an upper-case letter, at least
      three lower-case letters, and nothing more. */
  predicate IsCapWord(w: string) {
    |w| >= 4 && IsUpper(w[0]) && forall i :: 1 <= i < |w| ==> IsLower(w[i])
  }

  /** The length of the match of `[A-Z][a-z]{3,}\b` at the start of `s`, 0 if
      there is none (`w` is the class `\w`). Greedy `[a-z]{3,}` takes the
      whole lower-case run; giving letters back cannot help, since the
      boundary would then fall between two word characters. */
  function MatchLength(s: string, w: char -> bool): (n: nat)
    ensures n == 0 || (4 <= n <= |s|)
  {
    if |s| == 0 || !IsUpper(s[0]) then 0
    else
      var e := 1 + RunLength(s[1..], IsLower);
      if e >= 4 && (e == |s| || !w(s[e])) then e else 0
  }

  /** `re.findall(r'\b[A-Z][a-z]{3,}\b', s)` with `\w` given by `w`;
      `afterWord` says whether the character before `s` is a word character
      (so that no `\b` precedes `s[0]`). */
  function Scan(s: string, afterWord: bool, w: char -> bool): seq<string>
    decreases |s|
  {
    if |s| == 0 then []
    else if !afterWord && MatchLength(s, w) > 0 then
      var n := MatchLength(s, w);
      [s[..n]] + Scan(s[n..], true, w)
    else Scan(s[1..], w(s[0]), w)
  }

  /** The maximal runs of word characters, in order. */
  function Words(s: string, w: char -> bool): seq<string>
    decreases |s|
  {
    if |s| == 0 then []
    else if !w(s[0]) then Words(s[1..], w)
    else
      var n := RunLength(s, w);
      [s[..n]] + Words(s[n..], w)
  }

  /** `\w` contains the ASCII letters. */
  predicate LettersAreWord(w: char -> bool) {
    forall c :: (IsUpper(c) || IsLower(c)) ==> w(c)
  }

  /** Inside a word the scan only moves to the end of the word. */
  lemma {:induction false} ScanSkipsWord(s: string, w: char -> bool)
    requires LettersAreWord(w)
    ensures Scan(s, true, w) == Scan(s[RunLength(s, w)..], true, w)
    decreases |s|
  {
    if |s| > 0 && w(s[0]) {
      ScanSkipsWord(s[1..], w);
      assert s[1..][RunLength(s[1..], w)..] == s[RunLength(s, w)..];
    }
  }

  /** Before a non-word character, or at the end, whether a word came before
      does not matter. */
  lemma ScanAtBoundary(s: string, w: char -> bool)
    requires LettersAreWord(w)
    requires |s| == 0 || !w(s[0])
    ensures Scan(s, true, w) == Scan(s, false, w)
  {
  }

  /** A match at the start of a word covers the whole word, which is then a
      capitalised word; and a capitalised word is matched. */
  lemma MatchIsWord(s: string, w: char -> bool)
    requires LettersAreWord(w)
    requires |s| > 0 && w(s[0])
    ensures MatchLength(s, w) > 0 ==> MatchLength(s, w) == RunLength(s, w)
    ensures MatchLength(s, w) > 0 <==> IsCapWord(s[..RunLength(s, w)])
  {
    if MatchLength(s, w) > 0 {
      MatchCoversWord(s, w);
    }
    if IsCapWord(s[..RunLength(s, w)]) {
      CapWordMatches(s, w);
    }
  }

  /** A match runs to the end of the word, which is a capitalised word. */
  lemma MatchCoversWord(s: string, w: char -> bool)
    requires LettersAreWord(w)
    requires MatchLength(s, w) > 0
    ensures MatchLength(s, w) == RunLength(s, w) && IsCapWord(s[..MatchLength(s, w)])
  {
    var e := MatchLength(s, w);
    assert IsUpper(s[0]) && e == 1 + RunLength(s[1..], IsLower);
    forall i | 1 <= i < e
      ensures IsLower(s[i]) && w(s[i]) && s[..e][i] == s[i]
    {
      assert s[i] == s[1..][i - 1];
    }
    RunLengthAt(s, w, e);
  }

  /** A word that is capitalised is matched whole. */
  lemma CapWordMatches(s: string, w: char -> bool)
    requires LettersAreWord(w)
    requires |s| > 0 && w(s[0])
    requires IsCapWord(s[..RunLength(s, w)])
    ensures MatchLength(s, w) == RunLength(s, w)
  {
    var n := RunLength(s, w);
    forall i | 1 <= i < n
      ensures IsLower(s[i])
    {
      assert s[..n][i] == s[i];
    }
    assert IsUpper(s[0]) by { assert s[..n][0] == s[0]; }
    assert n == |s| || !IsLower(s[n]) by {
      if n < |s| {
        assert !w(s[n]);
      }
    }
    LowerRunAt(s, n);
    assert 1 + RunLength(s[1..], IsLower) == n >= 4;
  }

  /** A run of `w` ended by a non-`w` character (or the end) has that length. */
  lemma {:induction false} RunLengthAt(s: string, w: char -> bool, e: int)
    requires 0 <= e <= |s|
    requires forall i :: 0 <= i < e ==> w(s[i])
    requires e == |s| || !w(s[e])
    ensures RunLength(s, w) == e
    decreases |s|
  {
    if e > 0 {
      assert forall i :: 0 <= i < e - 1 ==> s[1..][i] == s[i + 1];
      RunLengthAt(s[1..], w, e - 1);
    }
  }

  /** When the word is `s[..n]` and all its letters after the first are lower
      case, the lower-case run after the first letter ends at `n`. */
  lemma LowerRunAt(s: string, n: int)
    requires 1 <= n <= |s| && (forall i :: 1 <= i < n ==> IsLower(s[i]))
    requires n == |s| || !IsLower(s[n])
    ensures 1 + RunLength(s[1..], IsLower) == n
  {
    RunLengthAt(s[1..], IsLower, n - 1);
  }

  /** The scan finds exactly the capitalised words among the words, in order. */
  lemma {:induction false} ScanIsFilter(s: string, w: char -> bool)
    requires LettersAreWord(w)
    ensures Scan(s, false, w) == Filter(IsCapWord, Words(s, w))
    decreases |s|
  {
    if |s| > 0 {
      if !w(s[0]) {
        ScanIsFilter(s[1..], w);
      } else {
        var n := RunLength(s, w);
        var rest := s[n..];
        assert |rest| == 0 || !w(rest[0]);
        MatchIsWord(s, w);
        ScanAtBoundary(rest, w);
        ScanIsFilter(rest, w);
        FilterConcat(IsCapWord, [s[..n]], Words(rest, w));
        if MatchLength(s, w) == 0 {
          ScanSkipsWord(s[1..], w);
          assert s[1..][RunLength(s[1..], w)..] == rest;
        }
      }
    }
  }

  /** `re.findall(r'\b[A-Z][a-z]{3,}\b', str(job))` */
  function JobKeywords(job: Value): (r: seq<string>)
    ensures r == Filter(IsCapWord, Words(Str(job), IsWordChar))
  {
    ScanIsFilter(Str(job), IsWordChar);
    Scan(Str(job), false, IsWordChar)
  }

  /** Every job keyword is a capitalised word of the job text, and every
      capitalised word of it is a keyword, in order. */
  lemma JobKeywordsAreCapWords(job: Value)
    ensures JobKeywords(job) == Filter(IsCapWord, Words(Str(job), IsWordChar))
    ensures forall i :: 0 <= i < |JobKeywords(job)| ==> IsCapWord(JobKeywords(job)[i])
  {
    ScanIsFilter(Str(job), IsWordChar);
  }

  // ---------------------------------------------------------------------
  // generate_mail
  // ---------------------------------------------------------------------

  /** The values substituted into the e-mail prompt. */
  datatype PromptInputs = PromptInputs(
    jobDescription: string, skillsList: string, linkList: string, link1: string, link2: string)

  /** The record appended to the e-mail log. */
  datatype MailLog = MailLog(
    jobTitle: Value, keywords: seq<string>, email: string, includedLinks: nat, totalLinks: nat)

  datatype Mail = Mail(email: string, log: MailLog)

  /** `generate_mail(job, links, skills)` with the model as a function from
      the prompt inputs to the reply; `None` when the skills join raises. */
  function GenerateMail(job: Dict, links: seq<string>, skills: Value, llm: PromptInputs -> string)
    : (r: Option<Mail>)
    ensures r.None? <==> SkillsStr(skills).None?
    ensures r.Some? ==>
              var slots := Slots(links);
              r.value.email == llm(PromptInputs(Str(VDict(job)), SkillsStr(skills).value,
                                                slots.linkList, slots.link1, slots.link2))
    ensures r.Some? ==> r.value.log.email == r.value.email
    ensures r.Some? ==> r.value.log.includedLinks == IncludedLinksCount(links, r.value.email)
    ensures r.Some? ==> r.value.log.includedLinks <= r.value.log.totalLinks == |links|
    ensures r.Some? ==> r.value.log.jobTitle == GetOr(job, "title", VStr("Unknown"))
    ensures r.Some? ==> r.value.log.keywords == JobKeywords(VDict(job))
  {
    match SkillsStr(skills)
    case None => None
    case Some(skillsList) =>
      var slots := Slots(links);
      var reply := llm(PromptInputs(Str(VDict(job)), skillsList, slots.linkList, slots.link1, slots.link2));
      Some(Mail(reply, MailLog(GetOr(job, "title", VStr("Unknown")), JobKeywords(VDict(job)), reply,
                               IncludedLinksCount(links, reply), |links|)))
  }
}
