# Cold-email generator: the data-shaping core in Dafny

The application scrapes job postings, keeps the software jobs, and stores them
as documents for a vector store. It matches a job's skills against a portfolio
catalog indexed by a sentence-embedding model, and asks a hosted language model
for a cold e-mail that cites the two best portfolio links. Around the foreign
calls (job board, language model, embedding model, vector store, SMTP,
Streamlit) sits a layer of deterministic string and record shaping. This
project models that layer and proves its properties.

Python values are modelled by one datatype, `PyValue.Value`:
- `None`, bool, int, float (by its printed form), str, list, dict, and any other object (by its `str()` form).
- A dict is an ordered association list: `Get` finds the first binding and `Put` replaces a binding in place or appends one.

An exception is an `Option`/`Result` failure. Every foreign call is a parameter of the function that makes it:
- the sanitizer `sanitize_text`;
- the text splitter, which may raise;
- embedding and storing the chunks, as whether it completes;
- the sentence encoder;
- the vector store's nearest-neighbour search;
- the language model, as a function from prompt inputs to reply;
- the JSON parser, given as its parsed result;
- the job-board scrape.

| module | file | models |
|---|---|---|
| `Wrappers`, `Seqs`, `Text`, `PyValue` | wrappers.dfy, seqs.dfy, text.dfy, pyvalue.dfy | `Option`/`Result`; map, filter and flatten; Python's `strip`, `split`, `join`, `lower`, `in`; Python values and dict access |
| `Skills` | skills.dfy | the trim-and-drop-blank skill cleaning shared by preprocess.py and portfolio.py, and the split/join round trip |
| `Scraper` | scraper.dfy | app/scraper.py: `normalize_text`, `is_software_job`, the row filter and coercion loop, `batch_scrape` batching |
| `Preprocess` | preprocess.dfy | app/preprocess.py: `simplify_metadata`, job validation, the skills field, document metadata, `preprocess_and_embed` |
| `Portfolio` | portfolio.dfy | app/portfolio.py: `load_portfolio` (populate only when empty) and `query_links` |
| `Chains` | chains.dfy | app/chains.py: `extract_jobs` result filtering and the pure part of `generate_mail` |
| `App` | app.dfy | app/main.py: `format_portfolio_links`, `Subject:` line removal, the title/skills/recipient fallbacks and the two e-mail flows |

Three behaviours of the code worth knowing, each stated by a member:
- `format_portfolio_links` keeps every string link, repeated links and `""` included (`App.FormatKeepsRepeats`, `App.EmptyLinkKept`).
- `load_portfolio` embeds every catalog row, whatever its description, and an empty catalog loads nothing without error (`Portfolio.LoadPortfolio`, `Portfolio.LoadTransitions`).
- The portfolio is loaded once at start-up; `query_links` never builds the index itself (`Portfolio.QueryLinks` takes the populated collection's search as given).

## Model

| member | source | states |
|---|---|---|
| Text.Strip | app/portfolio.py:35 | `strip()` returns a trimmed slice of its input |
| Text.StripRemovesSpace | app/portfolio.py:41 | only whitespace is cut from either end by `strip()` |
| Text.StripEmpty | app/preprocess.py:50 | a piece strips to "" exactly when it is all whitespace, which is when it is dropped |
| Text.StripFrame | app/preprocess.py:50 | the input is some whitespace, the stripped text, and some whitespace |
| Text.Split | app/preprocess.py:50 | `split(',')` yields at least one comma-free piece, and the pieces joined by ',' give the input back |
| Text.SplitJoin | app/preprocess.py:50 | splitting a ','-join of comma-free pieces gives the pieces back |
| Skills.CleanSkills | app/portfolio.py:35 | cleaned skills are non-empty and trimmed, never more than the input |
| Skills.CleanSkillsConcat | app/portfolio.py:35 | cleaning works piece by piece, so input order is kept |
| Skills.CleanSkillsOne | app/preprocess.py:50 | a piece is dropped iff it is all whitespace; otherwise it is kept stripped |
| Skills.SplitSkills | app/preprocess.py:49-50 | the split skills are non-empty, trimmed and hold no comma |
| PyValue.Str | app/chains.py:100 | `str()` of a string is the string itself; any other value is its `repr()` |
| PyValue.StrRepr | app/chains.py:107 | `repr()` of a string is its escaped text between two equal quotes, double quotes exactly when it holds a single quote and no double quote |
| PyValue.UnescapeEscape | app/chains.py:107 | the escaped text reads back as the original string |
| PyValue.StrReprInjective | app/chains.py:107 | different strings have different `repr()` |
| PyValue.ReprNewline | app/chains.py:107 | a newline is written as a backslash and `n`, so a word after it no longer starts at a word boundary |
| PyValue.ReprSingleQuote | app/chains.py:107 | a string with a single quote and no double quote is shown in double quotes, unescaped |
| PyValue.EscapeNoControl | app/chains.py:107 | no control character, a newline included, survives inside the quotes |
| Skills.SplitSkillsJoin | app/preprocess.py:50-54 | splitting the ", "-join of clean skills gives exactly those skills back |
| Scraper.NormalizeText | app/scraper.py:9-15 | a non-string gives ""; every result is lower case, word characters and single spaces, with no space at either end |
| Scraper.PunctToSpace | app/scraper.py:13 | each character that is neither a word character nor whitespace becomes a space; every other character stays where it is |
| Scraper.PunctToSpaceShape | app/scraper.py:13 | only word characters and whitespace remain; such text is a fixed point, so a second pass changes nothing |
| Scraper.CollapseSpace | app/scraper.py:14 | no double space remains, the first character is kept or becomes a space, and no other character is invented |
| Scraper.CollapseKeepsText | app/scraper.py:14 | the characters other than whitespace are exactly the input's, in order |
| Scraper.CollapseRun | app/scraper.py:14 | a whitespace run of any length becomes one space |
| Scraper.CollapseConcat | app/scraper.py:14 | texts that do not meet inside a whitespace run collapse separately, so each run and each word is handled on its own |
| Scraper.CollapseFixed | app/scraper.py:14 | text whose whitespace is already single plain spaces is left unchanged |
| Scraper.NormalizeIdempotent | app/scraper.py:12-15 | normalizing a normalized text changes nothing |
| Scraper.KeywordsFound | app/scraper.py:85 | the matched keywords are exactly the listed ones occurring in the title or the description |
| Scraper.IsSoftwareJob | app/scraper.py:82-94 | accepted iff a software keyword occurs in title or description and no exclusion keyword in the title; reason Passed iff accepted; the missing-keyword reason wins |
| Scraper.UnmatchableKeyword | app/scraper.py:13 | a keyword holding a character normalization never produces occurs in no normalized text |
| Scraper.DeadKeywordsListed | app/scraper.py:54-79 | "node.js", ".net", "vue.js", "express.js", "cross-platform" and "health & beauty" are in the keyword lists |
| Scraper.DeadKeywords | app/scraper.py:57-77 | none of those six keywords can ever match a normalized title or description |
| Scraper.CoerceValue | app/scraper.py:112-115 | None becomes "", str/int/float/bool stay, anything else becomes its `str()` |
| Scraper.CoerceRow | app/scraper.py:110-115 | a kept row keeps its keys with every value coerced |
| Scraper.CoerceRowIdempotent | app/scraper.py:110-116 | a coerced row holds only scalars, and coercing again changes nothing |
| Scraper.RowVerdict | app/scraper.py:105-117 | a row is logged as invalid iff its title or description is not a non-empty string; otherwise with the classifier's reason; Passed iff included |
| Scraper.FilterRows | app/scraper.py:104-117 | one log record per row in order; the kept jobs are exactly the coerced valid software rows, in order |
| Scraper.Batches | app/scraper.py:144-145 | the batches concatenate to the company list, are non-empty, and all but the last have exactly `size` companies |
| Scraper.BatchCount | app/scraper.py:144-146 | there are `(n + size - 1) // size` batches, the count the progress message announces |
| Scraper.ScrapeBatch | app/scraper.py:147-150 | scraping one batch extends the map to the batch's companies, each bound to its own scrape result, and adds no stranger |
| Scraper.BatchScrape | app/scraper.py:137-165 | every company is mapped to its scrape result and every entry comes from the company list; a non-positive batch size gives {} |
| Preprocess.SimplifyValue | app/preprocess.py:13-16 | str/int/float/bool values stay, every other value becomes its `str()` |
| Preprocess.SimplifyMetadata | app/preprocess.py:10-17 | the keys are kept in order and every value becomes a scalar |
| Preprocess.SimplifyGet | app/preprocess.py:10-17 | looking a key up after simplification gives the simplified original value |
| Preprocess.SimplifyAgreesWithCoerce | app/preprocess.py:10-17 | `simplify_metadata` equals the scraper's coercion except on None ("None" against "") |
| Preprocess.SkillsString | app/preprocess.py:48-54 | a string is split, cleaned and rejoined; a falsy non-string gives "software development"; a non-empty list of strings gives their ", " join; any other truthy value gives its `str()`; a list holding a non-string raises TypeError |
| Preprocess.MissingSkillsEmpty | app/preprocess.py:48 | a job without a skills key stores "", not the default skill |
| Preprocess.SkillsStringOfString | app/preprocess.py:49-54 | a string field is stored as its clean skills joined by ", " |
| Preprocess.JobMetadata | app/preprocess.py:58-64 | a document's metadata has exactly the keys company, title, url, experience, skills |
| Preprocess.MetadataDefaults | app/preprocess.py:92-99 | url defaults to "", experience to "Not specified"; company is the key, or `job['company']`, or "Unknown" |
| Preprocess.MetadataTitle | app/preprocess.py:60 | the stored title is the job's own title |
| Preprocess.ProcessJob | app/preprocess.py:34-66 | a non-dict raises AttributeError; a job is kept iff title, description and sanitized description are non-empty strings; the content is the sanitized description and the metadata is the job's five-field record with its skills string |
| Preprocess.ProcessJobs | app/preprocess.py:69-101 | only AttributeError or TypeError escape; a completed loop logs one document or skip entry per job after what was collected before, and kept documents have content and a title |
| Preprocess.ProcessJobsOne | app/preprocess.py:69-101 | one job adds its own document or skip entry, or raises its error |
| Preprocess.ProcessJobsConcat | app/preprocess.py:69-101 | the loop over `a + b` is the loop over `a` and then over `b` from its result; an error in `a` ends it |
| Preprocess.ProcessJobsCollects | app/preprocess.py:69-101 | a completed loop appends exactly each accepted job's document and each skipped job's entry, in job order |
| Preprocess.JobsCollectedConcat | app/preprocess.py:69-101 | what a job list contributes is what its two parts contribute, one after the other |
| Preprocess.ProcessJobsSucceeds | app/preprocess.py:69-101 | the loop completes iff no single job raises |
| Preprocess.ProcessCompanies | app/preprocess.py:29-66 | a company whose jobs are not a list is logged as skipped; every job of a listed company and every non-list company gives one document or skip entry; only AttributeError or TypeError escape |
| Preprocess.ProcessCompaniesOne | app/preprocess.py:30-66 | one company gives its "Jobs is not a list" skip entry, or the job loop over its jobs |
| Preprocess.ProcessCompaniesConcat | app/preprocess.py:30-66 | the batch form over `a + b` is the one over `a` and then over `b` from its result |
| Preprocess.ProcessCompaniesCollects | app/preprocess.py:29-66 | a completed batch form appends exactly each company's documents and skip entries, companies and jobs in cache order |
| Preprocess.CompaniesCollectedConcat | app/preprocess.py:29-66 | what a run of companies contributes is what its two parts contribute, one after the other |
| Preprocess.ProcessCompaniesSucceeds | app/preprocess.py:29-66 | the batch form completes iff no job of a listed company raises |
| Preprocess.CollectDocuments | app/preprocess.py:28-103 | ValueError iff the cache is neither dict nor list; every job is accounted for; a completed collection is exactly the per-job documents and skip entries, in cache order |
| Preprocess.CollectDocumentsOne | app/preprocess.py:68-101 | a one-job list collects that job's document or skip entry, or raises its error |
| Preprocess.CollectListConcat | app/preprocess.py:68-101 | the list form over `a + b` completes iff it completes over each part, and then collects `a`'s part followed by `b`'s |
| Preprocess.CollectDictConcat | app/preprocess.py:29-66 | the same for the batch form over two runs of companies |
| Preprocess.NonDictJobRaises | app/preprocess.py:70-71 | a non-dict job in the list form makes the whole call raise |
| Preprocess.NonDictCompanyJobRaises | app/preprocess.py:35-36 | a non-dict job of a company in the batch form makes the whole call raise |
| Preprocess.Documents | app/preprocess.py:121-127 | the kept splits are documents, and every document split is kept |
| Preprocess.DocumentsConcat | app/preprocess.py:121-127 | the documents keep the splitter's order |
| Preprocess.PreprocessAndEmbed | app/preprocess.py:20-167 | a collection error is re-raised unchanged; no documents returns before the splitter; a raising splitter or store raises; no valid split iff the splitter's documents are empty; the embedded chunks are exactly the valid splits, in order, each with its metadata simplified |
| Preprocess.NoJobsNoSplit | app/preprocess.py:111-115 | with no surviving job neither the splitter nor the store is consulted |
| Portfolio.EncodeAll | app/portfolio.py:22 | batch encoding succeeds iff every text encodes, one vector per text in order |
| Portfolio.LoadPortfolio | app/portfolio.py:19-30 | a non-empty collection is left alone; an empty one gets one entry per catalog row, with the row's skills, embedding and `{"links": Links}` |
| Portfolio.LoadedIdsDistinct | app/portfolio.py:29 | the entries added by one load have pairwise distinct ids |
| Portfolio.LoadedLinks | app/portfolio.py:28 | every stored entry's metadata answers "links" with its row's Links |
| Portfolio.LoadIdempotent | app/portfolio.py:20 | loading after a successful load changes nothing |
| Portfolio.LoadTransitions | app/portfolio.py:19-30 | Indexed is never left, and a non-empty catalog leads from Unindexed to Indexed |
| Portfolio.Head | app/portfolio.py:41 | `s[:100]` is a prefix of at most 100 characters, all of a short string |
| Portfolio.Snippet | app/portfolio.py:41 | a falsy description gives ""; a string gives at most 100 trimmed characters; any other truthy value raises |
| Portfolio.SnippetWithin | app/portfolio.py:41 | the snippet occurs in the description's first 100 characters with only whitespace cut around it |
| Portfolio.QueryText | app/portfolio.py:42-46 | "Required skills: " + joined skills, plus ". Key context: " + snippet only for a non-empty snippet |
| Portfolio.QueryTextExtends | app/portfolio.py:42-46 | the query without context is a prefix of the query with context |
| Portfolio.ValidSkills | app/portfolio.py:35 | the valid skills are the cleaned `str()` forms of the items; a non-iterable raises |
| Portfolio.QueryLinks | app/portfolio.py:33-60 | at most one result list; [] without usable skills or on any exception; otherwise the search's answer for the query text with 5 results |
| Portfolio.QueryLinksShortCircuit | app/portfolio.py:35-37 | with no usable skill neither the encoder nor the store is consulted |
| Portfolio.QueryLinksSucceeds | app/portfolio.py:47-55 | when nothing raises the result wraps exactly the search's metadata list |
| Chains.ExtractJobs | app/chains.py:42-51 | the parsed value is returned iff it is a non-empty list; a parse failure gives [] |
| Chains.SkillsStr | app/chains.py:54 | "" unless skills is a non-empty list; a list of strings gives their ", "-join; a non-string item makes the join raise |
| Chains.SkillsStrRoundTrip | app/chains.py:54 | the skills string of clean skills splits back into those skills |
| Chains.Slots | app/chains.py:95-97 | link1 is links[0] or "", link2 is links[1] or "", link_list is the ", "-join of the links, "" for no links |
| Chains.SlotsConsistent | app/chains.py:95-97 | for at most two non-empty links the slots give the links back and link_list is their ", "-join |
| Chains.IncludedLinksCount | app/chains.py:111-112 | the count is at most the number of links; it equals it iff every link occurs in the reply, and is 0 iff none does |
| Chains.IncludedLinksConcat | app/chains.py:111 | counting is additive over a split of the link list |
| Chains.MatchLength | app/chains.py:108 | a match of `[A-Z][a-z]{3,}\b` is at least four characters long |
| Chains.MatchIsWord | app/chains.py:108 | a match at a word start covers the whole word, and happens iff the word is capitalised |
| Chains.JobKeywords | app/chains.py:107-108 | the job keywords are the capitalised words of `str(job)`, in order |
| Chains.ScanIsFilter | app/chains.py:108 | `findall` of `\b[A-Z][a-z]{3,}\b` returns exactly the capitalised words, in order |
| Chains.JobKeywordsAreCapWords | app/chains.py:107-108 | every job keyword is an upper-case letter followed by at least three lower-case letters |
| Chains.GenerateMail | app/chains.py:53-128 | the e-mail is the model's reply to the job, skills string and link slots; the log's included count is the number of links that occur in the reply, at most the total, which is the number of links |
| App.LinkOf | app/main.py:28 | a link is taken iff the element is a dict whose 'links' is a string |
| App.MetaLinks | app/main.py:26-29 | the links of one list are exactly the string links of its elements |
| App.FlattenLinksMembers | app/main.py:25-29 | the flattened list holds exactly the string links of all metadata |
| App.FormatPortfolioLinks | app/main.py:20-39 | the result is the prefix of length min(2, n) of the flattened links; [] for no input |
| App.FormatAtMostOne | app/main.py:141-142 | on a query result of at most one list the selection is the first two string links of that list |
| App.FormatQueryLinks | app/main.py:141-142 | applied to `query_links`, the selection is [] when the query gave nothing, else the first two string links |
| App.FormatKeepsRepeats | app/main.py:25-35 | a repeated link is selected twice |
| App.EmptyLinkKept | app/main.py:28 | an empty string is a link like any other |
| App.Lines | app/main.py:43 | the lines of a text concatenate back into it, each ending with its newline except possibly the last |
| App.LinesFlatten | app/main.py:43 | splitting well-formed lines after joining them gives them back |
| App.FilterLines | app/main.py:43 | dropping lines keeps the rest well formed |
| App.CleanBody | app/main.py:43 | the cleaned body is the Subject-free body with whitespace cut at its two ends only; it is empty iff that body is all whitespace |
| App.RemoveSubjectLines | app/main.py:43 | the lines of the result are the body's lines without the Subject lines, in order |
| App.RemoveSubjectLinesKeeps | app/main.py:43 | the remaining lines are exactly the non-Subject lines, in order, and none is a Subject line |
| App.NoSubjectUnchanged | app/main.py:43 | a body without Subject lines is only stripped |
| App.RemoveSubjectLinesIdempotent | app/main.py:43 | removing Subject lines twice is removing them once |
| App.TitleFallback | app/main.py:112-115 | a non-dict raises; the title ends up truthy; a truthy title is untouched; an empty one takes the role, or else becomes "Job from <url>"; no other key changes |
| App.TitleFallbackIdempotent | app/main.py:112-115 | applying the fallback again changes nothing |
| App.ChooseSkills | app/main.py:118-139 | the chosen skills are never empty: the job's own if truthy, else the truthy fallback answer, else the two default skills |
| App.ChooseSkillsIgnoresFallback | app/main.py:120 | the fallback is consulted only when the job has no skills |
| App.DefaultSkillsQueried | app/main.py:136-141 | the default skills reach the portfolio query as two usable skills |
| App.ManualInitialSkills | app/main.py:118 | the job's own skills value, or an empty (falsy) list when it has none |
| App.BatchInitialSkills | app/main.py:205 | no extracted job gives []; a first job that is not a dict raises |
| App.CompanyEmails | app/main.py:71 | the map is built iff every record is a dict with a hashable name; looking a name up gives its last record's e-mail |
| App.EmailsFromGet | app/main.py:71 | looking a company up finds the e-mail of its last record |
| App.BatchRecipient | app/main.py:245 | the company's e-mail in the map, or the personal address when it has none |
| App.BatchRecipientDefault | app/main.py:245 | a company absent from the records falls back to the personal address; otherwise its last record's e-mail |
| App.LastEmailDefault | app/main.py:71 | a last record without recruiting_email gives the personal address |
| App.LastEmailAt | app/main.py:71 | the last record with a given name decides its e-mail |
| App.ManualRecipientOptions | app/main.py:163-172 | two options, the second the personal address; an unhashable company name raises |
| App.ManualRecipientFallback | app/main.py:163-171 | only the four named companies get their own address; every other name, a missing one included, gets recruiting@example.com |
| App.RecruitingOther | app/main.py:164-171 | any name other than the four listed companies looks up recruiting@example.com, "Unknown" through its own entry and the rest through the default |
| App.LinksFor | app/main.py:141-142 | at most two links are handed to the e-mail |
| App.ManualFlow | app/main.py:99-157 | no job data iff nothing was extracted; a non-dict first job raises; a generated e-mail has a truthy title, truthy skills and at most two links, all counted in its log |
| App.ManualFlowGenerates | app/main.py:110-149 | a first job with a non-empty list of string skills always gets its e-mail, queried with its own skills |
| App.BatchFlow | app/main.py:202-245 | the page stops iff the first extracted job is not a dict; otherwise truthy skills, at most two links, and the company's recipient |
| App.BatchFlowDefaults | app/main.py:205-226 | with nothing extracted and no usable fallback the default skills are used |

## Left out

- Streamlit pages, widgets and session state: UI plumbing. Only the data each flow computes is modelled.
- SMTP delivery in `send_email`: network I/O. Only the body cleaning is modelled.
- The language model, the prompt texts and the JSON output parser: a foreign service. The reply is a function of the prompt inputs, and the parser is its result (`None` for a parse failure).
- The sentence encoder, the vector store's ranking, persistence and `Chroma.from_documents`, and the text splitter: third-party numerics and storage. They are parameters.
- `scrape_company_jobs`' call to the job board, its alternative search terms, the pandas `concat`/`drop_duplicates`/`to_dict` round trip, the `scraped_at` column and `time.sleep`: network and library behaviour. `BatchScrape` takes the per-company scrape as a parameter, and `FilterRows` starts from the scraped rows.
- Every log-file write, print, the truncation of logged lists to five or ten items, and the JSON cache read and write: file I/O. The reasons are modelled as datatypes, not as message strings.
- `utils.sanitize_text` is not part of this model. It is a parameter.
- `uuid.uuid4()`: randomness. `LoadPortfolio` takes the ids as a parameter and requires them distinct.
- app/analyze_emails.py and app/test.py: charting and scripts outside the core.
- Unicode: `lower()` folds only ASCII letters and `\w` is approximated (ASCII letters, digits, '_' and every non-ASCII non-space character). Under IGNORECASE, "Subject:" matches ASCII case variants and the long s (U+017F).
- App.CompanyEmails: a record whose name is hashable but not a string (a number, a boolean, None) is skipped instead of being stored under a non-string key. Only string company names are ever looked up, so no lookup differs. A list or dictionary name does make the map fail, as the comprehension's TypeError does.
- PyValue.Repr: `repr` of a string escapes the backslash, the quote in use, `\t`, `\n`, `\r` and the other ASCII control characters as Python does; non-ASCII characters that Python considers unprintable (U+0085, U+00A0 and the like) are written as themselves instead of as `\x`/`\u` escapes.
- Scraper.BatchScrape: takes the company names, not the company records. A record without a `name` key makes `batch_scrape` raise KeyError, which its handler turns into `{}` after the earlier batches were written; that path is not modelled.
- Preprocess.PreprocessAndEmbed: the exception branch around `simplify_metadata` is not modelled, because the model's `str()` never raises. Splits the splitter returns as non-documents are `None`. The splitter, the embedding model and the vector store are parameters; whichever of them raises is one `LibraryError`, without the library's own exception type, and the store's result object is not modelled.
- Portfolio.LoadPortfolio: encoding is all-or-nothing per load. A failure in the middle of `collection.add` does not arise, since the adds are not modelled one by one.
