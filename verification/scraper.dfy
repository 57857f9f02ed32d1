/** The deterministic part of the job scraper (app/scraper.py): text
    normalization, the software-job keyword classifier, the per-row
    validation and value coercion, and the partition of the company list into
    fixed-size batches. The job-board scraper itself is a parameter. */
module Scraper {
  import opened Wrappers
  import opened Text
  import opened Seqs
  import opened PyValue

  // ---------------------------------------------------------------------
  // normalize_text
  // ---------------------------------------------------------------------

  /** A character normalization may produce: a space, or a word character
      that is not an upper-case letter. */
  predicate IsNormalChar(c: char) {
    c == ' ' || (IsWordChar(c) && !IsUpper(c))
  }

  predicate DoubleSpaceAt(t: string, i: int)
    requires 0 <= i < |t| - 1
  {
    t[i] == ' ' && t[i + 1] == ' '
  }

  predicate NoDoubleSpace(t: string) {
    forall i :: 0 <= i < |t| - 1 ==> !DoubleSpaceAt(t, i)
  }

  /** The shape of every normalized text: lower case, word characters and
      single spaces, no space at either end. */
  predicate IsNormalized(t: string) {
    && (forall i :: 0 <= i < |t| ==> IsNormalChar(t[i]))
    && Trimmed(t)
    && NoDoubleSpace(t)
  }

  /** `re.sub(r'[^\w\s]', ' ', s)` */
  function PunctToSpace(s: string): (r: string)
    ensures |r| == |s|
    ensures forall i :: 0 <= i < |s| ==>
              r[i] == (if IsWordChar(s[i]) || IsSpace(s[i]) then s[i] else ' ')
  {
    seq(|s|, i requires 0 <= i < |s| => if IsWordChar(s[i]) || IsSpace(s[i]) then s[i] else ' ')
  }

  /** After the substitution only word characters and whitespace remain,
      text made of those alone is left as it is, and a second pass changes
      nothing. */
  lemma PunctToSpaceShape(s: string)
    ensures forall i :: 0 <= i < |s| ==> IsWordChar(PunctToSpace(s)[i]) || IsSpace(PunctToSpace(s)[i])
    ensures (forall i :: 0 <= i < |s| ==> IsWordChar(s[i]) || IsSpace(s[i])) ==> PunctToSpace(s) == s
    ensures PunctToSpace(PunctToSpace(s)) == PunctToSpace(s)
  {
    assert IsSpace(' ');
  }

  /** `re.sub(r'\s+', ' ', s)`: every maximal whitespace run becomes one space. */
  function CollapseSpace(s: string): (r: string)
    ensures forall i :: 0 <= i < |r| ==> r[i] == ' ' || (!IsSpace(r[i]) && r[i] in s)
    ensures NoDoubleSpace(r)
    ensures |s| > 0 ==> |r| > 0 && r[0] == (if IsSpace(s[0]) then ' ' else s[0])
    decreases |s|
  {
    if |s| == 0 then []
    else if IsSpace(s[0]) then
      var t := StripStart(s);
      var rest := CollapseSpace(t);
      assert forall c :: c in t ==> c in s;
      ConsNoDoubleSpace(' ', rest);
      [' '] + rest
    else
      var rest := CollapseSpace(s[1..]);
      assert forall c :: c in s[1..] ==> c in s;
      ConsNoDoubleSpace(s[0], rest);
      [s[0]] + rest
  }

  predicate NotSpace(c: char) {
    !IsSpace(c)
  }

  /** A whitespace run, however long, becomes one plain space. */
  lemma CollapseRun(w: string)
    requires |w| > 0 && AllSpace(w)
    ensures CollapseSpace(w) == " "
  {
    StripStartAllSpace(w);
  }

  /** The characters other than whitespace are kept, in order, and no
      other is added. */
  lemma {:induction false} CollapseKeepsText(s: string)
    ensures Filter(NotSpace, CollapseSpace(s)) == Filter(NotSpace, s)
    decreases |s|
  {
    if |s| > 0 {
      if IsSpace(s[0]) {
        CollapseKeepsText(StripStart(s));
        KeepsTextAfterRun(s);
      } else {
        CollapseKeepsText(s[1..]);
        KeepsTextAfterWord(s);
      }
    }
  }

  /** The step of `CollapseKeepsText` for a leading whitespace run. */
  lemma KeepsTextAfterRun(s: string)
    requires |s| > 0 && IsSpace(s[0])
    requires Filter(NotSpace, CollapseSpace(StripStart(s))) == Filter(NotSpace, StripStart(s))
    ensures Filter(NotSpace, CollapseSpace(s)) == Filter(NotSpace, s)
  {
    var t := StripStart(s);
    var k := |s| - |t|;
    CollapseStep(s);
    SplitAt(s, k);
    FilterConcat(NotSpace, s[..k], t);
    FilterNone(NotSpace, s[..k]);
    FilterConcat(NotSpace, [' '], CollapseSpace(t));
    assert Filter(NotSpace, [' ']) == [];
  }

  /** The step of `CollapseKeepsText` for a leading word character. */
  lemma KeepsTextAfterWord(s: string)
    requires |s| > 0 && !IsSpace(s[0])
    requires Filter(NotSpace, CollapseSpace(s[1..])) == Filter(NotSpace, s[1..])
    ensures Filter(NotSpace, CollapseSpace(s)) == Filter(NotSpace, s)
  {
    CollapseStep(s);
    SplitAt(s, 1);
    assert s[..1] == [s[0]];
    FilterConcat(NotSpace, [s[0]], s[1..]);
    FilterConcat(NotSpace, [s[0]], CollapseSpace(s[1..]));
  }

  /** Two texts that do not meet inside a whitespace run collapse
      separately: runs and words are handled one at a time. */
  lemma {:induction false} CollapseConcat(a: string, b: string)
    requires |a| == 0 || |b| == 0 || !IsSpace(a[|a| - 1]) || !IsSpace(b[0])
    ensures CollapseSpace(a + b) == CollapseSpace(a) + CollapseSpace(b)
    decreases |a|
  {
    if |a| == 0 {
      assert a + b == b;
    } else if |b| == 0 {
      assert a + b == a;
    } else if !IsSpace(a[0]) {
      if |a| > 1 {
        assert a[1..][|a[1..]| - 1] == a[|a| - 1];
      }
      CollapseConcat(a[1..], b);
      CollapseWordThen(a, b);
    } else if AllSpace(a) {
      CollapseRunThen(a, b);
    } else {
      var t := StripStart(a);
      StripKeepsLast(a);
      CollapseConcat(t, b);
      CollapseRunThenMore(a, b);
    }
  }

  /** A word character in front of two texts that collapse separately
      stays in front of both. */
  lemma CollapseWordThen(a: string, b: string)
    requires |a| > 0 && !IsSpace(a[0])
    requires CollapseSpace(a[1..] + b) == CollapseSpace(a[1..]) + CollapseSpace(b)
    ensures CollapseSpace(a + b) == CollapseSpace(a) + CollapseSpace(b)
  {
    var x := a + b;
    HeadTailConcat(a, b);
    CollapseStep(x);
    CollapseStep(a);
    ConsAssoc(a[0], CollapseSpace(a[1..]), CollapseSpace(b));
  }

  /** A leading whitespace run that is not all of `a` is stripped without
      touching its last character. */
  lemma StripKeepsLast(a: string)
    requires |a| > 0 && IsSpace(a[0]) && !AllSpace(a)
    ensures |StripStart(a)| > 0 && StripStart(a)[|StripStart(a)| - 1] == a[|a| - 1]
  {
    assert a[..|a|] == a;
  }

  /** A leading whitespace run in front of two texts that collapse
      separately stays a single space in front of both. */
  lemma CollapseRunThenMore(a: string, b: string)
    requires |a| > 0 && IsSpace(a[0]) && !AllSpace(a)
    requires CollapseSpace(StripStart(a) + b) == CollapseSpace(StripStart(a)) + CollapseSpace(b)
    ensures CollapseSpace(a + b) == CollapseSpace(a) + CollapseSpace(b)
  {
    CollapseSpaceAfterRun(a, b);
    ConsAssoc(' ', CollapseSpace(StripStart(a)), CollapseSpace(b));
  }

  /** One step of `CollapseSpace`. */
  lemma CollapseStep(s: string)
    requires |s| > 0
    ensures IsSpace(s[0]) ==> CollapseSpace(s) == [' '] + CollapseSpace(StripStart(s))
    ensures !IsSpace(s[0]) ==> CollapseSpace(s) == [s[0]] + CollapseSpace(s[1..])
  {
  }

  /** A whitespace run before a word is stripped down to that word. */
  lemma StripRunThen(a: string, b: string)
    requires AllSpace(a) && |b| > 0 && !IsSpace(b[0])
    ensures StripStart(a + b) == b
  {
    StripStartConcat(a, b);
    assert StripStart(b) == b;
  }

  /** A text opening with whitespace collapses to one space and the
      collapse of what follows the run. */
  lemma CollapseOpenRun(x: string, b: string)
    requires |x| > 0 && IsSpace(x[0]) && StripStart(x) == b
    ensures CollapseSpace(x) == [' '] + CollapseSpace(b)
  {
    CollapseStep(x);
  }

  /** A whitespace run before a word collapses to one space before it. */
  lemma CollapseRunThen(a: string, b: string)
    requires |a| > 0 && AllSpace(a) && |b| > 0 && !IsSpace(b[0])
    ensures CollapseSpace(a + b) == CollapseSpace(a) + CollapseSpace(b)
  {
    var x := a + b;
    assert x[0] == a[0];
    StripRunThen(a, b);
    CollapseOpenRun(x, b);
    CollapseRun(a);
  }

  /** A text that starts with whitespace and holds more than whitespace
      collapses as one space and then the rest after that run. */
  lemma CollapseSpaceAfterRun(a: string, b: string)
    requires |a| > 0 && IsSpace(a[0]) && !AllSpace(a)
    ensures CollapseSpace(a + b) == [' '] + CollapseSpace(StripStart(a) + b)
    ensures CollapseSpace(a) == [' '] + CollapseSpace(StripStart(a))
  {
    assert (a + b)[0] == a[0];
    StripStartConcat(a, b);
    CollapseStep(a + b);
    CollapseStep(a);
  }

  /** A character put before a text free of double spaces keeps it so
      unless both are spaces. */
  lemma ConsNoDoubleSpace(x: char, rest: string)
    requires NoDoubleSpace(rest)
    requires x == ' ' ==> |rest| == 0 || rest[0] != ' '
    ensures NoDoubleSpace([x] + rest)
  {
    var r := [x] + rest;
    forall i | 0 <= i < |r| - 1 ensures !DoubleSpaceAt(r, i) {
      if i > 0 {
        assert r[i] == rest[i - 1] && r[i + 1] == rest[i];
        assert !DoubleSpaceAt(rest, i - 1);
      }
    }
  }

  /** A slice of a text free of double spaces is free of them. */
  lemma SliceNoDoubleSpace(c: string, a: int, b: int)
    requires 0 <= a <= b <= |c| && NoDoubleSpace(c)
    ensures NoDoubleSpace(c[a..b])
  {
    var r := c[a..b];
    forall i | 0 <= i < |r| - 1 ensures !DoubleSpaceAt(r, i) {
      assert r[i] == c[a + i] && r[i + 1] == c[a + i + 1];
      assert !DoubleSpaceAt(c, a + i);
    }
  }

  /** The text pipeline of `normalize_text` applied to a string. */
  function NormalizeString(s: string): string {
    Strip(CollapseSpace(PunctToSpace(Lower(s))))
  }

  /** After lower-casing and punctuation removal every character is
      whitespace or a normal character. */
  lemma PunctLowerShape(s: string)
    ensures forall i :: 0 <= i < |s| ==>
              IsSpace(PunctToSpace(Lower(s))[i]) || IsNormalChar(PunctToSpace(Lower(s))[i])
  {
  }

  lemma CollapseShape(b: string)
    requires forall i :: 0 <= i < |b| ==> IsSpace(b[i]) || IsNormalChar(b[i])
    ensures forall i :: 0 <= i < |CollapseSpace(b)| ==> IsNormalChar(CollapseSpace(b)[i])
  {
    var c := CollapseSpace(b);
    forall i | 0 <= i < |c| ensures IsNormalChar(c[i]) {
      if c[i] != ' ' {
        var j :| 0 <= j < |b| && b[j] == c[i];
      }
    }
  }

  /** `strip()` keeps a string free of double spaces: it returns a slice. */
  lemma StripNoDoubleSpace(c: string)
    requires NoDoubleSpace(c)
    ensures NoDoubleSpace(Strip(c))
  {
    var r := Strip(c);
    var k := StripOffset(c);
    assert r == c[k..k + |r|];
    SliceNoDoubleSpace(c, k, k + |r|);
  }

  lemma StripShape(c: string)
    requires forall i :: 0 <= i < |c| ==> IsNormalChar(c[i])
    requires NoDoubleSpace(c)
    ensures IsNormalized(Strip(c))
  {
    StripPreserves(c, IsNormalChar);
    StripNoDoubleSpace(c);
  }

  lemma NormalizeStringShape(s: string)
    ensures IsNormalized(NormalizeString(s))
  {
    PunctLowerShape(s);
    CollapseShape(PunctToSpace(Lower(s)));
    StripShape(CollapseSpace(PunctToSpace(Lower(s))));
  }

  /** `normalize_text(v)`: "" for anything that is not a string. */
  function NormalizeText(v: Value): (r: string)
    ensures !v.VStr? ==> r == ""
    ensures IsNormalized(r)
  {
    match v
    case VStr(s) => NormalizeStringShape(s); NormalizeString(s)
    case _ => ""
  }

  /** The only whitespace character in `t` is the plain space. */
  predicate OnlyPlainSpace(t: string) {
    forall i :: 0 <= i < |t| ==> IsSpace(t[i]) ==> t[i] == ' '
  }

  lemma TailNoDoubleSpace(t: string)
    requires |t| > 0 && NoDoubleSpace(t)
    ensures NoDoubleSpace(t[1..])
  {
    var u := t[1..];
    forall i | 0 <= i < |u| - 1 ensures !DoubleSpaceAt(u, i) {
      assert !DoubleSpaceAt(t, i + 1);
    }
  }

  /** A single leading space is all `lstrip()` removes from such a text. */
  lemma StripSingleSpace(t: string)
    requires |t| > 0 && IsSpace(t[0])
    requires OnlyPlainSpace(t) && NoDoubleSpace(t)
    ensures StripStart(t) == t[1..]
  {
    if |t| > 1 {
      assert !DoubleSpaceAt(t, 0);
      assert !IsSpace(t[1]);
    }
  }

  lemma CollapseSpaceStep(t: string)
    requires |t| > 0 && IsSpace(t[0])
    requires StripStart(t) == t[1..]
    requires CollapseSpace(t[1..]) == t[1..]
    ensures CollapseSpace(t) == [' '] + t[1..]
  {
  }

  lemma CollapseWordStep(t: string)
    requires |t| > 0 && !IsSpace(t[0])
    requires CollapseSpace(t[1..]) == t[1..]
    ensures CollapseSpace(t) == [t[0]] + t[1..]
  {
  }

  /** Text whose whitespace is already single plain spaces is left alone by
      the whitespace collapse. */
  lemma {:induction false} CollapseFixed(t: string)
    requires OnlyPlainSpace(t)
    requires NoDoubleSpace(t)
    ensures CollapseSpace(t) == t
    decreases |t|
  {
    if |t| > 0 {
      TailNoDoubleSpace(t);
      assert OnlyPlainSpace(t[1..]);
      CollapseFixed(t[1..]);
      if IsSpace(t[0]) {
        StripSingleSpace(t);
        CollapseSpaceStep(t);
      } else {
        CollapseWordStep(t);
      }
      assert t == [t[0]] + t[1..];
    }
  }

  /** Normalized text is a fixed point of the normalization pipeline. */
  lemma NormalizedFixed(t: string)
    requires IsNormalized(t)
    ensures NormalizeString(t) == t
  {
    assert Lower(t) == t;
    assert PunctToSpace(t) == t;
    CollapseFixed(t);
    StripTrimmed(t);
  }

  /** Normalizing twice is the same as normalizing once. */
  lemma NormalizeIdempotent(v: Value)
    ensures NormalizeText(VStr(NormalizeText(v))) == NormalizeText(v)
  {
    NormalizedFixed(NormalizeText(v));
  }

  // ---------------------------------------------------------------------
  // is_software_job
  // ---------------------------------------------------------------------

  const SoftwareKeywords: seq<string> :=
    ["software", "developer", "data science", "data scientist", "data engineer"] +
    ["devops", "programmer", "cloud", "ai", "machine learning", "ml", "llm", "llms"] +
    ["react", "node.js", "mongodb", "angular", ".net", "sql server"] +
    ["vue.js", "ruby on rails", "postgresql", "python", "django", "mysql"] +
    ["java", "spring boot", "oracle", "flutter", "firebase", "graphql"] +
    ["wordpress", "php", "magento", "react native", "ios", "swift"] +
    ["core data", "android", "room persistence", "kotlin", "android tv"] +
    ["android ndk", "arkit", "cross-platform", "xamarin", "azure"] +
    ["typescript", "express.js", "tensorflow", "jenkins", "docker"] +
    ["full stack", "backend", "frontend", "database", "cybersecurity"] +
    ["network engineer", "systems developer", "qa engineer", "test automation"] +
    ["automation engineer", "site reliability", "sre", "infrastructure developer"] +
    ["artificial intelligence", "ml engineer", "software development"] +
    ["web developer", "application developer", "app", "engineer"]

  const NonSoftwareKeywords: seq<string> :=
    ["pharmacy", "pharmacist", "technician", "retail", "store", "associate"] +
    ["cashier", "clerk", "sales", "customer service", "warehouse", "driver"] +
    ["delivery", "healthcare", "nurse", "medical", "manufacturing", "mechanical"] +
    ["civil", "electrical", "chemical", "biomedical", "industrial", "cake decorator"] +
    ["safety specialist", "loss prevention", "asset protection", "customer host"] +
    ["health & beauty", "fashion team", "backroom team", "car wash", "packaging engineer"] +
    ["tax analyst", "claims specialist", "team supervisor"]

  /** Some keyword occurs in one of the two texts. */
  predicate AnyIn(keywords: seq<string>, t: string, d: string) {
    exists k :: k in keywords && (Contains(t, k) || Contains(d, k))
  }

  /** `[k for k in keywords if k in t or k in d]` */
  function KeywordsFound(keywords: seq<string>, t: string, d: string): (r: seq<string>)
    ensures |r| <= |keywords|
    ensures forall k :: k in r <==> k in keywords && (Contains(t, k) || Contains(d, k))
    ensures |r| > 0 <==> AnyIn(keywords, t, d)
  {
    if |keywords| == 0 then []
    else
      var rest := KeywordsFound(keywords[1..], t, d);
      assert keywords == [keywords[0]] + keywords[1..];
      if Contains(t, keywords[0]) || Contains(d, keywords[0]) then [keywords[0]] + rest else rest
  }

  datatype Reason =
    | Passed
    | MissingSoftwareKeyword(found: seq<string>)
    | NonSoftwareKeywordInTitle(found: seq<string>)

  datatype Classification = Classification(isSoftware: bool, reason: Reason, matched: seq<string>)

  /** `normalize_text(row.get('title', ''))` */
  function RowTitle(row: Dict): string {
    NormalizeText(GetOr(row, "title", VStr("")))
  }

  /** `normalize_text(row.get('description', ''))` */
  function RowDescription(row: Dict): string {
    NormalizeText(GetOr(row, "description", VStr("")))
  }

  predicate HasSoftwareKeyword(title: string, desc: string) {
    AnyIn(SoftwareKeywords, title, desc)
  }

  /** Only the title is searched for exclusion keywords. */
  predicate HasNonSoftwareKeyword(title: string) {
    AnyIn(NonSoftwareKeywords, title, title)
  }

  /** `is_software_job(row)`: accepted iff some software keyword occurs in the
      normalized title or description and no exclusion keyword occurs in the
      normalized title; the missing-keyword reason takes precedence. */
  function IsSoftwareJob(row: Dict): (c: Classification)
    ensures c.isSoftware <==>
              HasSoftwareKeyword(RowTitle(row), RowDescription(row)) && !HasNonSoftwareKeyword(RowTitle(row))
    ensures c.reason.Passed? <==> c.isSoftware
    ensures !HasSoftwareKeyword(RowTitle(row), RowDescription(row)) ==> c.reason.MissingSoftwareKeyword?
    ensures HasSoftwareKeyword(RowTitle(row), RowDescription(row)) && HasNonSoftwareKeyword(RowTitle(row))
            ==> c.reason.NonSoftwareKeywordInTitle?
    ensures forall k :: k in c.matched <==>
              k in SoftwareKeywords && (Contains(RowTitle(row), k) || Contains(RowDescription(row), k))
  {
    var t := RowTitle(row);
    var d := RowDescription(row);
    var matched := KeywordsFound(SoftwareKeywords, t, d);
    var excluded := KeywordsFound(NonSoftwareKeywords, t, t);
    var hasSoftware := |matched| >= 1;
    var noNonSoftware := |excluded| == 0;
    var reason :=
      if !hasSoftware then MissingSoftwareKeyword(matched)
      else if !noNonSoftware then NonSoftwareKeywordInTitle(excluded)
      else Passed;
    Classification(hasSoftware && noNonSoftware, reason, matched)
  }

  /** A keyword holding a character that normalization never produces (a '.',
      a '-', an '&', an upper-case letter) occurs in no normalized text. */
  lemma UnmatchableKeyword(t: string, k: string, j: int)
    requires forall i :: 0 <= i < |t| ==> IsNormalChar(t[i])
    requires 0 <= j < |k| && !IsNormalChar(k[j])
    ensures !Contains(t, k)
  {
    ContainsOnlyHayChars(t, k, j);
  }

  /** Five software keywords and one exclusion keyword hold such a character ... */
  lemma DeadKeywordsListed()
    ensures "node.js" in SoftwareKeywords && ".net" in SoftwareKeywords && "vue.js" in SoftwareKeywords
    ensures "express.js" in SoftwareKeywords && "cross-platform" in SoftwareKeywords
    ensures "health & beauty" in NonSoftwareKeywords
  {
    DeadSoftwareKeywords();
    DeadSoftwareKeywordsLate();
    var n6 := ["health & beauty", "fashion team", "backroom team", "car wash", "packaging engineer"];
    assert n6[0] == "health & beauty";
  }

  /** The first software keywords among them. */
  lemma DeadSoftwareKeywords()
    ensures "node.js" in SoftwareKeywords && ".net" in SoftwareKeywords && "vue.js" in SoftwareKeywords
  {
    var c3 := ["react", "node.js", "mongodb", "angular", ".net", "sql server"];
    var c4 := ["vue.js", "ruby on rails", "postgresql", "python", "django", "mysql"];
    assert c3[1] == "node.js" && c3[4] == ".net" && c4[0] == "vue.js";
  }

  /** The later software keywords among them. */
  lemma DeadSoftwareKeywordsLate()
    ensures "express.js" in SoftwareKeywords && "cross-platform" in SoftwareKeywords
  {
    var c8 := ["android ndk", "arkit", "cross-platform", "xamarin", "azure"];
    var c9 := ["typescript", "express.js", "tensorflow", "jenkins", "docker"];
    assert c8[2] == "cross-platform" && c9[1] == "express.js";
  }

  /** ... so no normalized text, and hence no row, can ever match them. */
  lemma DeadKeywords(t: string)
    requires IsNormalized(t)
    ensures !Contains(t, "node.js") && !Contains(t, ".net") && !Contains(t, "vue.js")
    ensures !Contains(t, "express.js") && !Contains(t, "cross-platform")
    ensures !Contains(t, "health & beauty")
  {
    UnmatchableKeyword(t, "node.js", 4);
    UnmatchableKeyword(t, ".net", 0);
    UnmatchableKeyword(t, "vue.js", 3);
    UnmatchableKeyword(t, "express.js", 7);
    UnmatchableKeyword(t, "cross-platform", 5);
    UnmatchableKeyword(t, "health & beauty", 7);
  }

  // ---------------------------------------------------------------------
  // The row loop of scrape_company_jobs
  // ---------------------------------------------------------------------

  /** Title and description are both non-empty strings. */
  predicate ValidRow(row: Dict) {
    IsNonEmptyStr(GetOr(row, "title", VNone)) && IsNonEmptyStr(GetOr(row, "description", VNone))
  }

  predicate IsIncluded(row: Dict) {
    ValidRow(row) && IsSoftwareJob(row).isSoftware
  }

  /** Values a coerced row may hold: a string, int, float or bool. */
  function CoerceValue(v: Value): (r: Value)
    ensures IsScalar(r)
    ensures v.VNone? ==> r == VStr("")
    ensures IsScalar(v) ==> r == v
    ensures !v.VNone? && !IsScalar(v) ==> r == VStr(Str(v))
  {
    if v.VNone? then VStr("") else if IsScalar(v) then v else VStr(Str(v))
  }

  /** The coercion of an included job: same keys, every value coerced. */
  function CoerceRow(row: Dict): (r: Dict)
    ensures Keys(r) == Keys(row)
    ensures forall i :: 0 <= i < |r| ==> r[i].1 == CoerceValue(row[i].1)
  {
    seq(|row|, i requires 0 <= i < |row| => (row[i].0, CoerceValue(row[i].1)))
  }

  predicate IsCoerced(row: Dict) {
    forall i :: 0 <= i < |row| ==> IsScalar(row[i].1)
  }

  /** Coercion leaves only scalar values, and coercing again changes nothing. */
  lemma CoerceRowIdempotent(row: Dict)
    ensures IsCoerced(CoerceRow(row))
    ensures CoerceRow(CoerceRow(row)) == CoerceRow(row)
  {
  }

  datatype RowReason = InvalidTitleOrDescription | Classified(reason: Reason)

  /** The log record kept for every scraped row. */
  datatype Verdict = Verdict(title: Value, reason: RowReason, matched: seq<string>)

  /** The log record of one row: an invalid row is logged under its title (or
      "Unknown"); a valid one with the classifier's reason and matches. */
  function RowVerdict(row: Dict): (v: Verdict)
    ensures v.reason.InvalidTitleOrDescription? <==> !ValidRow(row)
    ensures ValidRow(row) ==> v.reason == Classified(IsSoftwareJob(row).reason)
    ensures v.reason == Classified(Passed) <==> IsIncluded(row)
  {
    if !ValidRow(row) then Verdict(GetOr(row, "title", VStr("Unknown")), InvalidTitleOrDescription, [])
    else
      var c := IsSoftwareJob(row);
      Verdict(GetOr(row, "title", VStr("")), Classified(c.reason), c.matched)
  }

  /** The filter loop: rows with a missing or empty title or description are
      logged and skipped; the rest are classified, and software jobs are kept
      with their values coerced. */
  method FilterRows(rows: seq<Dict>) returns (jobs: seq<Dict>, verdicts: seq<Verdict>)
    ensures verdicts == Map(RowVerdict, rows)
    ensures forall i :: 0 <= i < |rows| ==>
              (verdicts[i].reason.InvalidTitleOrDescription? <==> !ValidRow(rows[i]))
    ensures forall i :: 0 <= i < |rows| && ValidRow(rows[i]) ==>
              verdicts[i].reason == Classified(IsSoftwareJob(rows[i]).reason)
    ensures forall i :: 0 <= i < |rows| ==>
              (verdicts[i].reason == Classified(Passed) <==> IsIncluded(rows[i]))
    ensures jobs == Map(CoerceRow, Filter(IsIncluded, rows))
    ensures forall j :: 0 <= j < |jobs| ==> IsCoerced(jobs[j])
  {
    jobs := [];
    verdicts := [];
    for i := 0 to |rows|
      invariant verdicts == Map(RowVerdict, rows[..i])
      invariant jobs == Map(CoerceRow, Filter(IsIncluded, rows[..i]))
    {
      var row := rows[i];
      FilterMapSnoc(CoerceRow, IsIncluded, rows, i);
      MapSnoc(RowVerdict, rows, i);
      var v := RowVerdict(row);
      if v.reason == Classified(Passed) {
        jobs := jobs + [CoerceRow(row)];
      }
      verdicts := verdicts + [v];
    }
    assert rows[..|rows|] == rows;
    forall j | 0 <= j < |jobs| ensures IsCoerced(jobs[j]) {
      CoerceRowIdempotent(Filter(IsIncluded, rows)[j]);
    }
  }

  // ---------------------------------------------------------------------
  // batch_scrape
  // ---------------------------------------------------------------------

  /** `[xs[i:i + size] for i in range(0, len(xs), size)]` */
  function Batches<T>(xs: seq<T>, size: nat): (r: seq<seq<T>>)
    requires size > 0
    ensures Flatten(r) == xs
    ensures forall i :: 0 <= i < |r| ==> 0 < |r[i]| <= size
    ensures forall i :: 0 <= i < |r| - 1 ==> |r[i]| == size
    decreases |xs|
  {
    if |xs| == 0 then []
    else if |xs| <= size then
      assert xs + [] == xs;
      [xs]
    else
      var rest := Batches(xs[size..], size);
      assert xs == xs[..size] + xs[size..];
      [xs[..size]] + rest
  }

  /** There are `ceil(len(xs) / size)` batches, the count the progress
      message prints. */
  lemma {:induction false} BatchCount<T>(xs: seq<T>, size: nat)
    requires size > 0
    ensures |Batches(xs, size)| == (|xs| + size - 1) / size
    decreases |xs|
  {
    if |xs| == 0 {
      DivUnique(size - 1, size, 0, size - 1);
    } else if |xs| <= size {
      DivUnique(|xs| + size - 1, size, 1, |xs| - 1);
    } else {
      BatchCount(xs[size..], size);
      DivShift(|xs| + size - 1, size);
    }
  }

  lemma MulAtLeast(x: int, d: int)
    requires d > 0 && x >= 1
    ensures x * d >= d
  {
  }

  /** Euclidean division has a unique quotient. */
  lemma DivUnique(a: int, d: int, q: int, r: int)
    requires d > 0 && 0 <= r < d && a == q * d + r
    ensures a / d == q
  {
    var q', r' := a / d, a % d;
    assert a == q' * d + r';
    var k := q' - q;
    assert k * d == r - r';
    if k >= 1 {
      MulAtLeast(k, d);
      assert false;
    } else if k <= -1 {
      MulAtLeast(-k, d);
      assert false;
    }
  }

  lemma DivShift(a: nat, size: nat)
    requires size > 0 && a >= size
    ensures a / size == (a - size) / size + 1
  {
    var q, r := (a - size) / size, (a - size) % size;
    assert a == (q + 1) * size + r;
    DivUnique(a, size, q + 1, r);
  }

  /** Every name in `names` maps to its scrape result. */
  predicate Covers<J(==)>(all: Assoc<J>, names: seq<string>, scrape: string -> J) {
    forall c :: c in names ==> Get(all, c) == Some(scrape(c))
  }

  /** Every entry is a company's name bound to that company's scrape result. */
  predicate EntriesScraped<J(==)>(all: Assoc<J>, companies: seq<string>, scrape: string -> J) {
    forall i :: 0 <= i < |all| ==> all[i].0 in companies && all[i].1 == scrape(all[i].0)
  }

  /** Storing one more company's jobs keeps both invariants of the loop. */
  lemma PutScraped<J>(all: Assoc<J>, seen: seq<string>, name: string,
                      companies: seq<string>, scrape: string -> J)
    requires Covers(all, seen, scrape) && EntriesScraped(all, companies, scrape)
    requires name in companies
    ensures Covers(Put(all, name, scrape(name)), seen + [name], scrape)
    ensures EntriesScraped(Put(all, name, scrape(name)), companies, scrape)
  {
    var all' := Put(all, name, scrape(name));
    forall i | 0 <= i < |all'| ensures all'[i].0 in companies && all'[i].1 == scrape(all'[i].0) {
      if all'[i] != (name, scrape(name)) {
        var j :| 0 <= j < |all| && all[j] == all'[i];
      }
    }
  }

  /** The inner loop of `batch_scrape`: scrape every company of one batch
      and store its jobs under its name. */
  method ScrapeBatch<J(==)>(all: Assoc<J>, batch: seq<string>, ghost seen: seq<string>,
                            ghost companies: seq<string>, scrape: string -> J)
    returns (all': Assoc<J>)
    requires Covers(all, seen, scrape) && EntriesScraped(all, companies, scrape)
    requires forall j :: 0 <= j < |batch| ==> batch[j] in companies
    ensures Covers(all', seen + batch, scrape)
    ensures EntriesScraped(all', companies, scrape)
  {
    all' := all;
    for j := 0 to |batch|
      invariant Covers(all', seen + batch[..j], scrape)
      invariant EntriesScraped(all', companies, scrape)
    {
      var name := batch[j];
      PutScraped(all', seen + batch[..j], name, companies, scrape);
      all' := Put(all', name, scrape(name));
      assert seen + batch[..j + 1] == seen + batch[..j] + [name];
    }
    assert batch[..|batch|] == batch;
  }

  /** The companies of batch `b` come from the flattened list. */
  lemma BatchMembers<T>(batches: seq<seq<T>>, b: int)
    requires 0 <= b < |batches|
    ensures forall j :: 0 <= j < |batches[b]| ==> batches[b][j] in Flatten(batches)
    ensures Flatten(batches[..b + 1]) == Flatten(batches[..b]) + batches[b]
  {
    forall j | 0 <= j < |batches[b]| ensures batches[b][j] in Flatten(batches) {
      FlattenContains(batches, b, batches[b][j]);
    }
    assert batches[..b + 1] == batches[..b] + [batches[b]];
    FlattenConcat(batches[..b], [batches[b]]);
    assert Flatten([batches[b]]) == batches[b] + [];
  }

  /** `batch_scrape`: every company of every batch is scraped once and its jobs
      stored under its name (a repeated name overwrites the same entry). A
      batch size of zero makes `range` raise, which the source turns into an
      empty result; a negative one yields no batch at all. */
  method BatchScrape<J(==)>(companies: seq<string>, batchSize: int, scrape: string -> J)
    returns (all: Assoc<J>)
    ensures batchSize <= 0 ==> all == []
    ensures batchSize > 0 ==> forall c :: c in companies ==> Get(all, c) == Some(scrape(c))
    ensures forall i :: 0 <= i < |all| ==> all[i].0 in companies && all[i].1 == scrape(all[i].0)
  {
    all := [];
    if batchSize <= 0 {
      return;
    }
    var batches := Batches(companies, batchSize);
    for b := 0 to |batches|
      invariant Covers(all, Flatten(batches[..b]), scrape)
      invariant EntriesScraped(all, companies, scrape)
    {
      BatchMembers(batches, b);
      all := ScrapeBatch(all, batches[b], Flatten(batches[..b]), companies, scrape);
    }
    assert batches[..|batches|] == batches;
  }
}
