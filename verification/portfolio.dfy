/** The portfolio index of app/portfolio.py: the catalog of tech-stack rows
    is embedded into the vector collection once, when the collection is
    empty, and `query_links` turns a skill list and a job description into a
    query for the five nearest catalog entries. The sentence encoder and the
    collection's nearest-neighbour search are parameters; `None` from either
    stands for the exception it would raise. */
module Portfolio {
  import opened Wrappers
  import opened Text
  import opened Seqs
  import opened PyValue
  import opened Skills

  /** One row of the portfolio CSV. */
  datatype CatalogRow = CatalogRow(techskills: string, links: Value)

  /** One record of the vector collection. */
  datatype Entry = Entry(id: string, document: string, embedding: seq<real>, metadata: Dict)

  /** The sentence encoder; `None` when encoding raises. */
  type Encoder = string -> Option<seq<real>>

  predicate Distinct(ids: seq<string>) {
    forall i, j :: 0 <= i < j < |ids| ==> ids[i] != ids[j]
  }

  // ---------------------------------------------------------------------
  // load_portfolio
  // ---------------------------------------------------------------------

  /** The two states of the collection as `load_portfolio` sees them. */
  datatype IndexState = Unindexed | Indexed

  function StateOf(collection: seq<Entry>): (s: IndexState)
    ensures s == Unindexed <==> |collection| == 0
  {
    if |collection| == 0 then Unindexed else Indexed
  }

  /** `encode(texts)` over a batch: raises if any text does. */
  function EncodeAll(texts: seq<string>, encode: Encoder): (r: Option<seq<seq<real>>>)
    ensures r.Some? <==> forall i :: 0 <= i < |texts| ==> encode(texts[i]).Some?
    ensures r.Some? ==> |r.value| == |texts|
    ensures r.Some? ==> forall i :: 0 <= i < |texts| ==> r.value[i] == encode(texts[i]).value
    decreases |texts|
  {
    if |texts| == 0 then Some([])
    else
      match (encode(texts[0]), EncodeAll(texts[1..], encode))
      case (Some(v), Some(vs)) =>
        assert forall i :: 1 <= i < |texts| ==> texts[i] == texts[1..][i - 1];
        Some([v] + vs)
      case _ =>
        assert forall i :: 1 <= i < |texts| ==> texts[i] == texts[1..][i - 1];
        None
  }

  function TechSkills(row: CatalogRow): string {
    row.techskills
  }

  /** The entry of catalog row `i`: its tech skills as the document, its
      embedding, `{"links": row Links}` as metadata, and a fresh id. */
  predicate EntryOf(e: Entry, row: CatalogRow, id: string, encode: Encoder) {
    && e.id == id
    && e.document == row.techskills
    && encode(row.techskills) == Some(e.embedding)
    && e.metadata == [("links", row.links)]
  }

  /** `load_portfolio()`: when the collection is empty every catalog row is
      embedded and added; otherwise nothing happens. `ids` are the fresh
      uuids the calls to `uuid4` would return, one per row. */
  function LoadPortfolio(catalog: seq<CatalogRow>, collection: seq<Entry>, encode: Encoder, ids: seq<string>)
    : (r: Option<seq<Entry>>)
    requires |ids| >= |catalog| && Distinct(ids)
    ensures |collection| > 0 ==> r == Some(collection)
    ensures |collection| == 0 ==>
              (r.Some? <==> forall i :: 0 <= i < |catalog| ==> encode(catalog[i].techskills).Some?)
    ensures |collection| == 0 && r.Some? ==>
              |r.value| == |catalog| &&
              forall i :: 0 <= i < |catalog| ==> EntryOf(r.value[i], catalog[i], ids[i], encode)
  {
    if |collection| > 0 then Some(collection)
    else
      var texts := Map(TechSkills, catalog);
      match EncodeAll(texts, encode)
      case None => None
      case Some(vectors) =>
        Some(seq(|catalog|, i requires 0 <= i < |catalog| =>
               Entry(ids[i], catalog[i].techskills, vectors[i], [("links", catalog[i].links)])))
  }

  /** Every entry added by a load has its own id. */
  lemma LoadedIdsDistinct(catalog: seq<CatalogRow>, encode: Encoder, ids: seq<string>)
    requires |ids| >= |catalog| && Distinct(ids)
    requires LoadPortfolio(catalog, [], encode, ids).Some?
    ensures forall i, j :: 0 <= i < j < |LoadPortfolio(catalog, [], encode, ids).value| ==>
              LoadPortfolio(catalog, [], encode, ids).value[i].id != LoadPortfolio(catalog, [], encode, ids).value[j].id
  {
  }

  /** Every stored entry answers `get("links")` with its row's links. */
  lemma LoadedLinks(catalog: seq<CatalogRow>, encode: Encoder, ids: seq<string>, i: int)
    requires |ids| >= |catalog| && Distinct(ids)
    requires LoadPortfolio(catalog, [], encode, ids).Some? && 0 <= i < |catalog|
    ensures Get(LoadPortfolio(catalog, [], encode, ids).value[i].metadata, "links") == Some(catalog[i].links)
  {
  }

  /** A load after a successful load changes nothing, whatever ids it would
      draw: the populated collection is left alone, and an empty catalog
      loads nothing either time. */
  lemma LoadIdempotent(catalog: seq<CatalogRow>, collection: seq<Entry>, encode: Encoder,
                       ids: seq<string>, ids2: seq<string>)
    requires |ids| >= |catalog| && Distinct(ids)
    requires |ids2| >= |catalog| && Distinct(ids2)
    requires LoadPortfolio(catalog, collection, encode, ids).Some?
    ensures LoadPortfolio(catalog, LoadPortfolio(catalog, collection, encode, ids).value, encode, ids2)
            == LoadPortfolio(catalog, collection, encode, ids)
  {
    var c := LoadPortfolio(catalog, collection, encode, ids).value;
    if |c| == 0 {
      assert |collection| == 0 && |catalog| == 0;
      assert LoadPortfolio(catalog, c, encode, ids2) == Some([]);
    }
  }

  /** The state machine: Indexed is never left, and loading a non-empty
      catalog into an Unindexed collection makes it Indexed. */
  lemma LoadTransitions(catalog: seq<CatalogRow>, collection: seq<Entry>, encode: Encoder, ids: seq<string>)
    requires |ids| >= |catalog| && Distinct(ids)
    requires LoadPortfolio(catalog, collection, encode, ids).Some?
    ensures StateOf(collection) == Indexed ==> StateOf(LoadPortfolio(catalog, collection, encode, ids).value) == Indexed
    ensures |catalog| > 0 ==> StateOf(LoadPortfolio(catalog, collection, encode, ids).value) == Indexed
    ensures StateOf(LoadPortfolio(catalog, collection, encode, ids).value) == Unindexed <==>
              StateOf(collection) == Unindexed && |catalog| == 0
  {
  }

  // ---------------------------------------------------------------------
  // query_links
  // ---------------------------------------------------------------------

  /** The collection's nearest-neighbour search: the metadata list of the
      first query's results, or `None` when the query raises. */
  type Search = (seq<real>, nat) -> Option<seq<Value>>

  const QueryResults: nat := 5

  const SnippetLength: nat := 100

  /** `s[:100]` */
  function Head(s: string): (h: string)
    ensures |h| <= SnippetLength && |h| <= |s| && h == s[..|h|]
    ensures |s| <= SnippetLength ==> h == s
  {
    if |s| <= SnippetLength then s else s[..SnippetLength]
  }

  /** `description[:100].strip() if description else ""`; only a string can
      be sliced and stripped, anything else truthy raises. */
  function Snippet(description: Value): (r: Option<string>)
    ensures !Truthy(description) ==> r == Some("")
    ensures r.Some? <==> !Truthy(description) || description.VStr?
    ensures r.Some? ==> |r.value| <= SnippetLength && Trimmed(r.value)
  {
    if !Truthy(description) then Some("")
    else if description.VStr? then Some(Strip(Head(description.s)))
    else None
  }

  /** The snippet is a piece of the description's first 100 characters with
      only whitespace cut from either end. */
  lemma SnippetWithin(s: string)
    ensures var r := Snippet(VStr(s)).value;
            var k := StripOffset(Head(s));
            OccursAt(s, r, k) && k + |r| <= SnippetLength
            && AllSpace(s[..k]) && AllSpace(Head(s)[k + |r|..])
  {
    var h := Head(s);
    assert Snippet(VStr(s)).value == Strip(h) by {
      if |s| == 0 {
        assert Strip(h) == [];
      }
    }
    StripRemovesSpace(h);
    StripOfPrefix(s, h);
  }

  /** Stripping a prefix of `s` leaves a piece of `s`, preceded in `s` by
      the whitespace `strip()` removed. */
  lemma StripOfPrefix(s: string, h: string)
    requires |h| <= |s| && h == s[..|h|]
    requires AllSpace(h[..StripOffset(h)])
    ensures OccursAt(s, Strip(h), StripOffset(h))
    ensures AllSpace(s[..StripOffset(h)])
  {
    var r := Strip(h);
    var k := StripOffset(h);
    assert h[..k] == s[..k];
    assert r == h[k..k + |r|] == s[k..k + |r|];
  }

  const SkillsPrefix: string := "Required skills: "
  const ContextPrefix: string := ". Key context: "

  /** `f"Required skills: {skills_str}{desc_snippet}"` */
  function QueryText(skills: seq<string>, snippet: string): (q: string)
    ensures |q| >= |SkillsPrefix| && q[..|SkillsPrefix|] == SkillsPrefix
    ensures snippet == "" ==> q == SkillsPrefix + JoinSkills(skills)
    ensures snippet != "" ==> q == SkillsPrefix + JoinSkills(skills) + ContextPrefix + snippet
  {
    SkillsPrefix + JoinSkills(skills) + (if snippet == "" then "" else ContextPrefix + snippet)
  }

  /** The query without context is a prefix of the query with context. */
  lemma QueryTextExtends(skills: seq<string>, snippet: string)
    ensures QueryText(skills, "") == QueryText(skills, snippet)[..|QueryText(skills, "")|]
  {
  }

  /** `[str(skill).strip() for skill in skills if str(skill).strip()]`;
      `None` when `skills` is not iterable. */
  function ValidSkills(skills: Value): (r: Option<seq<string>>)
    ensures r.Some? <==> Iterate(skills).Some?
    ensures r.Some? ==> r.value == CleanSkills(Map(Str, Iterate(skills).value))
  {
    match Iterate(skills)
    case None => None
    case Some(items) => Some(CleanSkills(Map(Str, items)))
  }

  /** `query_links(skills, description)`: a one-element list holding the
      metadata of the five nearest entries, or [] when there is no usable
      skill or anything raises. */
  function QueryLinks(skills: Value, description: Value, encode: Encoder, search: Search)
    : (r: seq<seq<Value>>)
    ensures |r| <= 1
    ensures ValidSkills(skills) == None || ValidSkills(skills) == Some([]) ==> r == []
    ensures Snippet(description).None? ==> r == []
    ensures |r| == 1 ==>
              var q := QueryText(ValidSkills(skills).value, Snippet(description).value);
              encode(q).Some? && search(encode(q).value, QueryResults) == Some(r[0])
  {
    match ValidSkills(skills)
    case None => []
    case Some(valid) =>
      if |valid| == 0 then []
      else
        match Snippet(description)
        case None => []
        case Some(snippet) =>
          var q := QueryText(valid, snippet);
          match encode(q)
          case None => []
          case Some(v) =>
            match search(v, QueryResults)
            case None => []
            case Some(metas) => [metas]
  }

  /** With no usable skill the encoder and the collection are never consulted. */
  lemma QueryLinksShortCircuit(skills: Value, description: Value,
                               encode1: Encoder, search1: Search, encode2: Encoder, search2: Search)
    requires ValidSkills(skills).Some? && ValidSkills(skills).value == []
    ensures QueryLinks(skills, description, encode1, search1) == QueryLinks(skills, description, encode2, search2) == []
  {
  }

  /** When nothing raises the result wraps exactly the search's answer for
      the query text. */
  lemma QueryLinksSucceeds(skills: Value, description: Value, encode: Encoder, search: Search)
    requires ValidSkills(skills).Some? && |ValidSkills(skills).value| > 0
    requires Snippet(description).Some?
    requires encode(QueryText(ValidSkills(skills).value, Snippet(description).value)).Some?
    requires search(encode(QueryText(ValidSkills(skills).value, Snippet(description).value)).value, QueryResults).Some?
    ensures QueryLinks(skills, description, encode, search) ==
              [search(encode(QueryText(ValidSkills(skills).value, Snippet(description).value)).value, QueryResults).value]
  {
  }
}
