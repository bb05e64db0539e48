# peerlens data rules in Dafny

peerlens collects open peer reviews from eLife and F1000Research, prepares
them for an editorial-brief pipeline, and measures the briefs that pipeline
writes. The synthesis stages themselves run in an external prompt-execution
tool with no Python source. This project models the deterministic Python
around that tool, and proves what each part promises.

- **Records** (`Schema`). The dataclasses and their rules:
  - the review's word-count default and the manuscript's review-count default (both `__post_init__`);
  - the disagreement heuristic and the `validate` checklist;
  - the review summary;
  - the two `to_dict` conversions.
- **Collectors** (`Collectors`, `ElifeCollector`, `F1000Collector`). Article discovery:
  - eLife de-duplicates and falls back to fixed identifiers;
  - F1000Research caps the links it reads and falls back to fixed identifiers.

  The bookkeeping loop of `collect_manuscripts` (attempted, successful and failed counters, error entries). The rules that turn an article page into a manuscript:
  - authors and keywords;
  - reviewer names and anonymity;
  - recommendations and which reviews are kept;
  - the eLife assessment's significance and strength;
  - author responses and the F1000Research decision.

  The HTML is replaced by the texts and attribute values those rules read. Fetching is an optional page, and collecting one article is a function parameter.
- **Orchestration** (`CollectReviews`):
  - `CollectionConfig` and the command-line override block;
  - the merge of both sources with the minimum-review filter;
  - the loops and counters of `_generate_summary_stats`.
- **Pipeline input** (`PrepareInput`):
  - flattening loaded manuscripts into one record per review, in order, each carrying its manuscript's context;
  - the statistics printed afterwards;
  - one context record per manuscript.

  The loaded JSON is an arbitrary Python value (`PyData.Value`), so every `KeyError`, `TypeError` and `ZeroDivisionError` is an explicit outcome.
- **Brief metrics** (`AnalyzeResults`):
  - normalising the loaded briefs;
  - `analyze_brief`'s counts and evidence coverage;
  - `generate_summary`'s totals, averages, coverage range, pass rate and confidence counter.

`Text` models the string operations used: `strip`, `split`, `lower`, `in`,
the digit-run regular expressions, and `str(n)`. `Wrappers` holds
`Option` and `Result`.

Numbers are exact: Python's `int` and `float` are both `real`, and the
percentages and averages are stated as exact products (`r * n == 100 * k`).

## Model

| member | source | states |
|---|---|---|
| Schema.SourceFromValue | data_collection/schema.py:12-17 | `ReviewSource(v)` finds the member whose value is `v`, and finds none exactly when no member has that value |
| Schema.DecisionFromValue | data_collection/schema.py:20-26 | `ReviewDecision(v)` finds the member whose value is `v`, and finds none exactly when no member has that value |
| Schema.PostInitReview | data_collection/schema.py:58-60 | only `word_count` changes. A supplied non-zero count, or empty text, keeps it. Non-empty text with count 0 gets the number of whitespace-separated words, and stays 0 only for all-whitespace text |
| Schema.PostInitManuscript | data_collection/schema.py:124-126 | only `num_reviews` changes. It becomes `len(reviews)` when it was 0. A non-zero value is kept even when it disagrees with the list |
| Schema.AnonymousPlusNamed | data_collection/schema.py:139-140 | every review is counted as exactly one of anonymous or named |
| Schema.CountAnonymous | data_collection/schema.py:139 | a count over the reviews; SummaryCountsAppend and AnonymousPlusNamed |
| Schema.CountNamed | data_collection/schema.py:140 | a count over the reviews; SummaryCountsAppend and AnonymousPlusNamed |
| Schema.TotalWords | data_collection/schema.py:141 | the sum of the word counts; SummaryCountsAppend |
| Schema.SummaryCountsAppend | data_collection/schema.py:139-141 | one more review adds its word count to the total words, and adds one to the anonymous count or to the named count, whichever its reviewer is |
| Schema.GetReviewSummary | data_collection/schema.py:135-145 | anonymous + named = total reviews. Total words is the sum of word counts. The average is 0 with no reviews, and otherwise times the count gives the total. The two flags hold exactly when there is a response or an assessment |
| Schema.HasDisagreementIff | data_collection/schema.py:147-150 | `has_disagreement` holds exactly when two reviews carry different non-empty recommendations |
| Schema.HasDisagreement | data_collection/schema.py:147-150 | the set of non-empty recommendations has more than one element; characterised in `HasDisagreementIff` |
| Schema.NoDisagreementWithOneLabel | data_collection/schema.py:147-150 | with at most one labelled review there is never a disagreement; unlabelled reviews do not count |
| Schema.Validate | data_collection/schema.py:152-169 | the issue list `validate` builds in its loop is the reference list `ValidationIssues` |
| Schema.AppendReviewIssues | data_collection/schema.py:165-167 | the per-review loop appends exactly one issue per short review, in review order, after the issues already found |
| Schema.ReviewIssuesCount | data_collection/schema.py:165-167 | the loop reports as many issues as there are reviews whose stripped text is empty or shorter than 50 |
| Schema.ReviewIssuesEmpty | data_collection/schema.py:165-167 | the loop reports nothing exactly when no review is too short |
| Schema.ValidateEmptyIff | data_collection/schema.py:152-169 | `validate` returns nothing exactly when id, title and URL are non-empty, there is a review, and every review's stripped text has at least 50 characters |
| Schema.ValidationIssueCount | data_collection/schema.py:154-167 | number of issues = missing header fields + 1 for no reviews + number of short reviews |
| Schema.HeaderIssues | data_collection/schema.py:156-163 | one issue per missing header field and one for no reviews, in the order checked; ValidationIssueCount and ValidateEmptyIff |
| Schema.ReviewIssues | data_collection/schema.py:165-167 | one issue per review with insufficient text, named by its position; ReviewIssuesCount, ReviewIssuesEmpty and ReviewIssueMembership |
| Schema.ValidationIssues | data_collection/schema.py:152-169 | the issues `validate` reports, in order; characterised in `ValidateEmptyIff` and `ValidationIssueCount` |
| Schema.ReviewIssueInjective | data_collection/schema.py:167 | different review positions give different issue messages |
| Schema.ReviewIssue | data_collection/schema.py:167 | the message naming a 1-based review position; ReviewIssueInjective and ReviewIssueNamesPosition |
| Schema.ReviewIssueMembership | data_collection/schema.py:165-167 | the message naming 1-based position `p` is reported exactly when review `p` exists and is too short |
| Schema.ReviewIssueNamesPosition | data_collection/schema.py:165-167 | for a manuscript, the message for review `p` is among its issues exactly when that review is too short |
| Schema.ReviewerAsDict | data_collection/schema.py:29-35 | `asdict` of a reviewer can be written as JSON |
| Schema.ReviewAsDict | data_collection/schema.py:38-56 | `asdict` of a review (nested reviewer included) can be written as JSON |
| Schema.AuthorResponseAsDict | data_collection/schema.py:63-69 | `asdict` of an author response can be written as JSON |
| Schema.AssessmentAsDict | data_collection/schema.py:72-79 | `asdict` of an editorial assessment can be written as JSON |
| Schema.ReviewList | data_collection/schema.py:108 | the reviews become a JSON list of their dicts, one per review, in order |
| Schema.ResponseList | data_collection/schema.py:109 | the author responses become a JSON list |
| Schema.AssessmentList | data_collection/schema.py:110 | the editorial assessments become a JSON list |
| Schema.PlainFieldsJson | data_collection/schema.py:86-122 | when `raw_data` is JSON, every manuscript field except the two enum fields can be written as JSON |
| Schema.ManuscriptToDict | data_collection/schema.py:128-133 | `to_dict` writes `source` and `decision` as their string values |
| Schema.ToDictIsJson | data_collection/schema.py:128-133 | when `raw_data` is JSON, the whole `to_dict` result can be written as JSON |
| Schema.ToDictSameKeys | data_collection/schema.py:128-133 | `to_dict` has exactly the keys `asdict` has |
| Schema.ToDictKeepsOtherFields | data_collection/schema.py:128-133 | every key other than `source` and `decision` keeps the value `asdict` gave it |
| Schema.AsDictIsNotJson | data_collection/schema.py:130 | `asdict` alone still holds enum members, so it cannot be written as JSON; the replacement is needed |
| Schema.ToDictEnumsRoundTrip | data_collection/schema.py:131-132 | the written `source` and `decision` strings give back the original enum members |
| Schema.ErrorAsDict | data_collection/schema.py:182 | an error entry is a JSON dict |
| Schema.MetadataToDict | data_collection/schema.py:185-189 | same keys as `asdict`. Only `source` is replaced, by its string value. The result is JSON whenever `config` is |
| Collectors.PyTake | data_collection/collectors/elife_collector.py:83 | `xs[:n]` is a prefix of `xs`, of length `min(n, len)` for `n >= 0`; a negative `n` drops that many from the end |
| Collectors.RunBookkeeping | data_collection/collectors/elife_collector.py:83-116 | after `n` iterations: attempted = `n`; failed = number of error entries; the kept manuscripts are those collection returned, in order; successful = their number. With a non-negative delay, successful + failed = attempted. With a negative delay `time.sleep` raises every time, so each attempt also fails once more |
| Collectors.Visit | data_collection/collectors/elife_collector.py:84-116 | one loop iteration; RunBookkeeping and RunErrors state what it does to the counters and errors |
| Collectors.Run | data_collection/collectors/elife_collector.py:83-116 | the loop state after `n` iterations; RunBookkeeping and RunErrors |
| Collectors.RunErrors | data_collection/collectors/elife_collector.py:99-104 | with a usable delay every error entry is "Failed to collect manuscript" for an attempt that returned nothing |
| Collectors.RunConfig | data_collection/collectors/elife_collector.py:71-75 | the metadata `config` has exactly the three keys and is JSON |
| Collectors.TitleOr | data_collection/collectors/elife_collector.py:229 | the title is the extracted one when non-empty, else `Article {id}`; it is never empty |
| Collectors.NewManuscript | data_collection/collectors/elife_collector.py:225-239 | the built manuscript carries the given id, source, URL, title, abstract, authors, keywords, DOI, publication date, collection date, reviews, responses, assessments and decision. Subject areas, the preprint and submission dates, the preprint DOI and the decision date keep their defaults, review rounds is 1, `raw_data` is `{'html_collected': True}`, and `num_reviews` = number of reviews |
| Collectors.PositionIdInjective | data_collection/collectors/elife_collector.py:315-321 | review and reviewer identifiers built from different section positions differ |
| Collectors.KeptPositions | data_collection/collectors/elife_collector.py:298-326 | the positions of kept sections are 1-based, strictly increasing, never more than the sections read, and each names a section that passed the filter |
| Collectors.KeptPositionsComplete | data_collection/collectors/elife_collector.py:298-326 | a position is kept exactly when it is in range and its section passes the filter |
| Collectors.KeptMapAtPositions | data_collection/collectors/elife_collector.py:298-326 | the k-th review built is the one for the section at the k-th kept position |
| Collectors.KeptMapComplete | data_collection/collectors/elife_collector.py:298-326 | every section that passes the filter yields its item (in order by `KeptMapAtPositions`) |
| Collectors.KeptMapIdsDistinct | data_collection/collectors/elife_collector.py:315-321 | items that carry their section position's id have pairwise distinct ids |
| Collectors.LongNames | data_collection/collectors/elife_collector.py:269-272 | only names longer than two characters are kept, never more than were given (completeness: `LongNamesKeepsExactly`) |
| Collectors.LongNamesKept | data_collection/collectors/elife_collector.py:269-272 | the name filter is the kept-sections loop with the name as item, so every long name is kept, in order |
| Collectors.LongNamesKeepsExactly | data_collection/collectors/elife_collector.py:269-272 | each name is kept as often as it occurs when it is longer than two characters, and never otherwise |
| Collectors.LongNamesPrefix | data_collection/collectors/elife_collector.py:269-272 | the names kept from a prefix of the tags are a prefix of the names kept from all of them |
| Collectors.CapThenFilterIsPrefix | data_collection/collectors/f1000_collector.py:280-285 | F1000Research caps at ten tags then filters; eLife filters then caps. The F1000Research result is a prefix of eLife's, so never longer |
| Collectors.LongNamesSameOnPrefix | data_collection/collectors/f1000_collector.py:282-285 | filtering a prefix of the tags looks only at that prefix |
| ElifeCollector.LinkIds | data_collection/collectors/elife_collector.py:147-151 | one match result per link |
| ElifeCollector.DiscoverArticles | data_collection/collectors/elife_collector.py:120-180 | discovery's loops compute the reference `WithFallback(Found(...))` |
| ElifeCollector.AddLinkIds | data_collection/collectors/elife_collector.py:147-153 | the link loop computes `AddNew` over all links |
| ElifeCollector.AddLinkId | data_collection/collectors/elife_collector.py:148-153 | one iteration appends the link's identifier unless there is none or it is already held |
| ElifeCollector.AddNewShape | data_collection/collectors/elife_collector.py:147-169 | the loop keeps what was held in front, adds no duplicate, and ends holding exactly the old identifiers plus every identifier a link carried |
| ElifeCollector.AddNew | data_collection/collectors/elife_collector.py:147-153 | the link loop after `n` links; AddNewShape |
| ElifeCollector.Hold | data_collection/collectors/elife_collector.py:150-153 | one link: append its id unless there is none or it is already held; AddNewShape |
| ElifeCollector.DiscoveryShape | data_collection/collectors/elife_collector.py:147-178 | at least five identifiers come out. Those found on the pages have no duplicates. The articles listing is ignored when the reviewed-preprints listing already gave `num_articles` |
| ElifeCollector.Found | data_collection/collectors/elife_collector.py:136-171 | the ids before the fallback, with a listing that could not be fetched as `None`; DiscoveryShape |
| ElifeCollector.WithFallback | data_collection/collectors/elife_collector.py:175-178 | the fallback ids appended when fewer than five were found; DiscoveryShape and FallbackMayRepeat |
| ElifeCollector.FallbackMayRepeat | data_collection/collectors/elife_collector.py:175-178 | the fallback is appended without a duplicate check: a found `97433` then appears twice |
| ElifeCollector.Attempts | data_collection/collectors/elife_collector.py:83-115 | each attempt is logged under its article id, both when collection returns nothing and when it raises |
| ElifeCollector.CollectManuscripts | data_collection/collectors/elife_collector.py:49-118 | discovery, then `article_ids[:num_manuscripts]`, then the collection loop: the manuscripts and metadata are those of `Collection` for the same site, with source eLife, the given clock readings and the `config` dict |
| ElifeCollector.CollectionCounts | data_collection/collectors/elife_collector.py:49-118 | the batch is the discovered ids cut to `num_manuscripts`: at most `num_manuscripts` and at least `min(num_manuscripts, 5)` attempts when that is non-negative. Failures pair one-to-one with error entries. With a usable delay each attempt is one success or one failure. Every error names an id of the batch |
| ElifeCollector.Batch | data_collection/collectors/elife_collector.py:79-83 | `article_ids[:num_manuscripts]` of the discovered ids; CollectionCounts |
| ElifeCollector.ErrorsName | data_collection/collectors/elife_collector.py:99-115 | every error entry names the article of one of the attempts |
| ElifeCollector.Collection | data_collection/collectors/elife_collector.py:49-118 | the reference run of `collect_manuscripts`: discovery, `[:num_manuscripts]`, the collection loop; properties in `CollectionCounts` |
| ElifeCollector.Authors | data_collection/collectors/elife_collector.py:265-273 | the first ten of the tag texts longer than two characters, in page order (a prefix of `LongNames`); fewer than ten only when every long text is among them |
| ElifeCollector.ExtractAuthors | data_collection/collectors/elife_collector.py:265-273 | the loop computes `Authors` (filter, then cap at ten) |
| ElifeCollector.ReviewerName | data_collection/collectors/elife_collector.py:302-311 | a name is read exactly when there is a heading that is not `Reviewer N` / `Review N`; it is the heading itself |
| ElifeCollector.NumberedReviewerIsAnonymous | data_collection/collectors/elife_collector.py:309 | `Reviewer N` and `Review N` headings give no name |
| ElifeCollector.ExtractReviews | data_collection/collectors/elife_collector.py:287-328 | the loop computes the reference review list `ReviewsOf` |
| ElifeCollector.ReviewsShape | data_collection/collectors/elife_collector.py:298-326 | every kept review has text longer than 100 characters and its word count. Its reviewer is anonymous exactly when no name was read. It has no recommendation. Every section longer than 100 characters yields its review, and review ids are pairwise distinct |
| ElifeCollector.SectionReview | data_collection/collectors/elife_collector.py:313-326 | the review built from one section; ReviewsShape |
| ElifeCollector.ReviewsOf | data_collection/collectors/elife_collector.py:298-326 | the reviews kept from the first `n` sections, in order; properties in `ReviewsShape` |
| ElifeCollector.Significance | data_collection/collectors/elife_collector.py:344-350 | landmark, then important, then useful; proved to be the strongest scale term mentioned in `SignificanceFollowsScale` |
| ElifeCollector.Strength | data_collection/collectors/elife_collector.py:352-357 | exceptional, then solid (also for "strong"), then inadequate; proved to be the strongest scale term mentioned in `StrengthFollowsScale` |
| ElifeCollector.SignificanceFollowsScale | data_collection/collectors/elife_collector.py:344-350 | significance is the strongest of landmark > important > useful that the lower-cased text mentions, and is absent exactly when none is mentioned |
| ElifeCollector.Strongest | data_collection/collectors/elife_collector.py:344-357 | the strongest term of a rating scale that the text mentions, the reference both ratings are proved against; SignificanceFollowsScale and StrengthFollowsScale |
| ElifeCollector.StrengthFollowsScale | data_collection/collectors/elife_collector.py:352-357 | strength is the strongest of exceptional > solid/strong > inadequate that the text mentions, and is absent exactly when none is mentioned |
| ElifeCollector.Assessments | data_collection/collectors/elife_collector.py:330-368 | at most one assessment, present exactly when the section is. It carries the section text and the significance and strength of its lower-cased text |
| ElifeCollector.ResponsesOf | data_collection/collectors/elife_collector.py:377-385 | the responses kept from the first `n` sections, in order; properties in `ResponsesShape` |
| ElifeCollector.ResponsesShape | data_collection/collectors/elife_collector.py:377-385 | every response is longer than 100 characters and there are never more than sections; every text longer than 100 characters yields its response; response ids are pairwise distinct |
| ElifeCollector.ExtractAuthorResponses | data_collection/collectors/elife_collector.py:370-387 | the loop computes `ResponsesOf` |
| ElifeCollector.CollectSingleManuscript | data_collection/collectors/elife_collector.py:182-245 | `None` exactly when the page could not be fetched. Otherwise: the article id; source eLife; the reviewed-preprint URL or, after a 404, the article URL; the title with its fallback; the page's abstract, DOI and publication date; no keywords; the extracted authors, reviews, assessments and responses; `num_reviews` = number of reviews; decision `NO_DECISION`; the given collection date; `raw_data` `{'html_collected': True}` |
| F1000Collector.LinkInfo | data_collection/collectors/f1000_collector.py:143-153 | a link yields an entry exactly when its `href` has a `[\d-]+` run after `/articles/`; the id is that non-empty run |
| F1000Collector.LinkInfos | data_collection/collectors/f1000_collector.py:142-153 | one entry result per link, in page order |
| F1000Collector.FallbackInfos | data_collection/collectors/f1000_collector.py:165-170 | there are five fallback entries |
| F1000Collector.DiscoverArticles | data_collection/collectors/f1000_collector.py:122-172 | discovery's loops compute the reference `WithFallback(Found(...))` |
| F1000Collector.ScanLinks | data_collection/collectors/f1000_collector.py:142-156 | the link loop with its early `break` computes the reference `Scan` |
| F1000Collector.ScanStep | data_collection/collectors/f1000_collector.py:142-156 | one link: hold its entry, then stop once `2 * num_articles` entries are held |
| F1000Collector.AppendFallback | data_collection/collectors/f1000_collector.py:166-170 | the fallback loop appends the five entries, in order, after what was found |
| F1000Collector.ScanBound | data_collection/collectors/f1000_collector.py:142-156 | the loop keeps what it held and never holds more than the cap (one entry when the cap is not positive) |
| F1000Collector.Entries | data_collection/collectors/f1000_collector.py:147-153 | the entries the links of a stretch carry, in link order; EntriesContents |
| F1000Collector.EntriesContents | data_collection/collectors/f1000_collector.py:147-153 | an entry is among a stretch's entries exactly when one of those links carries it |
| F1000Collector.ScanEntries | data_collection/collectors/f1000_collector.py:142-156 | the loop holds what it held followed by the entries of the links it looks at, in link order, and stops before the last link only once `limit` entries are held |
| F1000Collector.ScanEnd | data_collection/collectors/f1000_collector.py:142-156 | the link after which the loop stops, never past the last one; ScanEntries |
| F1000Collector.Scan | data_collection/collectors/f1000_collector.py:142-156 | the link loop from one position on, stopping once `limit` entries are held; ScanEntries, ScanBound, ScanIds and ScanStep |
| F1000Collector.ScanIds | data_collection/collectors/f1000_collector.py:147-153 | every held entry has a non-empty id |
| F1000Collector.DiscoveryShape | data_collection/collectors/f1000_collector.py:142-170 | at least five entries. The found ones come first and number at most `max(2 * num_articles, 1)`. The five fallback entries follow exactly when fewer than five were found |
| F1000Collector.DiscoveryContents | data_collection/collectors/f1000_collector.py:142-156 | a fetched page's found entries are its links' entries in link order up to some link, and the loop stops early only once `2 * num_articles` are held. Every found entry is some link's entry, and with fewer than `2 * num_articles` found every link's entry is found |
| F1000Collector.Found | data_collection/collectors/f1000_collector.py:131-159 | the entries before the fallback, with a page that could not be fetched as `None`; DiscoveryShape and DiscoveryContents |
| F1000Collector.WithFallback | data_collection/collectors/f1000_collector.py:162-170 | the five fallback entries appended when fewer than five were found; DiscoveryShape |
| F1000Collector.Attempts | data_collection/collectors/f1000_collector.py:84-117 | a failed collection is logged under the id, an exception under `str(article_info)` |
| F1000Collector.CollectManuscripts | data_collection/collectors/f1000_collector.py:50-120 | discovery, then `article_ids[:num_manuscripts]`, then the collection loop: the manuscripts and metadata are those of `Collection` for the same site, with source F1000Research |
| F1000Collector.CollectionCounts | data_collection/collectors/f1000_collector.py:50-120 | the batch is the discovered entries cut to `num_manuscripts`: at most `num_manuscripts` and at least `min(num_manuscripts, 5)` attempts when that is non-negative. Failures pair one-to-one with error entries. With a usable delay each attempt is exactly one success or failure, and every error names the id of an entry of the batch |
| F1000Collector.Batch | data_collection/collectors/f1000_collector.py:84 | `article_ids[:num_manuscripts]` of the discovered entries; CollectionCounts |
| F1000Collector.Collection | data_collection/collectors/f1000_collector.py:50-120 | the reference run of `collect_manuscripts`: discovery, `[:num_manuscripts]`, the collection loop; properties in `CollectionCounts` |
| F1000Collector.StrippedNonEmpty | data_collection/collectors/f1000_collector.py:311 | never more keywords than pieces (completeness: `StrippedNonEmptyKept`) |
| F1000Collector.StrippedNonEmptyKept | data_collection/collectors/f1000_collector.py:311 | the keyword filter is the kept-sections loop with the stripped piece as item: every non-blank piece is kept, stripped, in order |
| F1000Collector.Keywords | data_collection/collectors/f1000_collector.py:304-313 | `_extract_keywords`; properties in `KeywordsShape` |
| F1000Collector.StrippedNonEmptyShape | data_collection/collectors/f1000_collector.py:311 | each kept piece is non-empty, comma-free and stripped at both ends |
| F1000Collector.KeywordsShape | data_collection/collectors/f1000_collector.py:304-313 | no meta tag gives no keywords. Otherwise there are at most commas + 1 keywords, each non-empty, comma-free and without surrounding whitespace, and every piece that is not blank is among them, stripped |
| F1000Collector.Present | data_collection/collectors/f1000_collector.py:273-277 | only non-empty `citation_author` values are kept, never more than there are tags (completeness: `PresentKeepsExactly`) |
| F1000Collector.PresentKept | data_collection/collectors/f1000_collector.py:273-277 | the meta filter is the kept-sections loop with the content as item, so values stay in page order |
| F1000Collector.PresentKeepsExactly | data_collection/collectors/f1000_collector.py:273-277 | each non-empty value is kept as often as tags carry it, and the empty value never |
| F1000Collector.PresentEmpty | data_collection/collectors/f1000_collector.py:273-280 | no meta value is kept exactly when no tag is filled, which is when the tag fallback runs |
| F1000Collector.FirstTenLongNames | data_collection/collectors/f1000_collector.py:280-285 | every tag text longer than two characters among the first ten is kept |
| F1000Collector.Authors | data_collection/collectors/f1000_collector.py:268-287 | `_extract_authors`: meta values, else the filtered first ten tags; properties in `AuthorsShape` |
| F1000Collector.AuthorsShape | data_collection/collectors/f1000_collector.py:268-287 | never an empty name. With a filled meta tag the authors are exactly the filled values, each as often as tags carry it. Otherwise at most ten, each longer than two characters, and every such text among the first ten tags is kept |
| F1000Collector.ExtractAuthors | data_collection/collectors/f1000_collector.py:268-287 | the loops compute `Authors`: meta values, or when there are none the long names among the first ten tags |
| F1000Collector.MetaAuthors | data_collection/collectors/f1000_collector.py:274-277 | the meta loop computes `Present` |
| F1000Collector.TagAuthors | data_collection/collectors/f1000_collector.py:282-285 | the tag loop computes `LongNames` |
| F1000Collector.RemoveTitles | data_collection/collectors/f1000_collector.py:335 | removing title words never lengthens the text |
| F1000Collector.CleanName | data_collection/collectors/f1000_collector.py:332-337 | a name that is read has at least three characters |
| F1000Collector.CleanNameStripped | data_collection/collectors/f1000_collector.py:335 | a name never begins or ends with whitespace |
| F1000Collector.RemoveTitlesKeepsPlain | data_collection/collectors/f1000_collector.py:335 | text with no `r`/`R` is left unchanged by the substitution |
| F1000Collector.NumberedHeadingIsAnonymous | data_collection/collectors/f1000_collector.py:332-337 | `Referee 2`, `Reviewer 12`, `Report by 3` leave no name, so the reviewer is anonymous |
| F1000Collector.LeadingTitleRemoved | data_collection/collectors/f1000_collector.py:335 | a title word at the front is removed whatever follows |
| F1000Collector.SpacedDigitsStripShort | data_collection/collectors/f1000_collector.py:335-337 | a space and at most two digits strip to fewer than three characters |
| F1000Collector.NotApprovedUnreachable | data_collection/collectors/f1000_collector.py:356-362 | the `not_approved` branch is never taken |
| F1000Collector.RecommendationCases | data_collection/collectors/f1000_collector.py:356-362 | "approved with reservations" wins. Any other text with "approved" (including "not approved") reads as approved. Text without "approved" gives none |
| F1000Collector.Recommendation | data_collection/collectors/f1000_collector.py:356-362 | the verdict text read for "approved with reservations", then "approved", then "not approved"; properties in `RecommendationCases` and `NotApprovedUnreachable` |
| F1000Collector.ExtractReviews | data_collection/collectors/f1000_collector.py:315-381 | the loop computes the reference review list `ReviewsOf` |
| F1000Collector.ReviewsShape | data_collection/collectors/f1000_collector.py:364-376 | every kept review has text longer than 100 characters and its word count. Its reviewer is anonymous exactly when no name was read. It is never `not_approved`. Every section longer than 100 characters yields its review, and review ids are pairwise distinct |
| F1000Collector.SectionReview | data_collection/collectors/f1000_collector.py:364-377 | the review built from one section; ReviewsShape |
| F1000Collector.ReviewsOf | data_collection/collectors/f1000_collector.py:326-379 | the reviews of the first `n` sections; ReviewsShape |
| F1000Collector.DecisionCases | data_collection/collectors/f1000_collector.py:395-409 | REJECT exactly when the lower-cased page contains "not approved"; ACCEPT exactly when it contains "approved" but not "not approved"; PENDING otherwise |
| F1000Collector.DetermineDecision | data_collection/collectors/f1000_collector.py:395-409 | `_determine_decision` on the page text; its three cases are proved in `DecisionCases` |
| F1000Collector.CollectSingleManuscript | data_collection/collectors/f1000_collector.py:174-234 | `None` exactly when the page could not be fetched. Otherwise: the given URL or the default article URL; source F1000Research; the title with its fallback; the page's abstract, DOI and publication date; the extracted authors, keywords and reviews; no responses or assessments; `num_reviews` = number of reviews; the page's decision; the given collection date; `raw_data` `{'html_collected': True}` |
| CollectReviews.CollectionConfig.constructor | data_collection/config.py:10-38 | every setting starts at its documented default |
| CollectReviews.CollectionConfig.ApplyOverrides | data_collection/collect_reviews.py:347-359 | `--num-manuscripts` and `--rate-limit` apply only when non-zero. A non-empty `--sources` sets each flag to whether the source is named. `--output-dir` applies when non-empty. Every other setting is unchanged |
| CollectReviews.Filter | data_collection/collect_reviews.py:97-100 | only manuscripts with at least `min_reviews` reviews are kept, never more than given |
| CollectReviews.FilterAppend | data_collection/collect_reviews.py:97-100 | filtering distributes over concatenation, so the original order is kept |
| CollectReviews.FilterKeepsExactly | data_collection/collect_reviews.py:97-100 | each manuscript with enough reviews is kept as often as it occurs; every other manuscript is dropped |
| CollectReviews.FilterIdempotent | data_collection/collect_reviews.py:97-100 | filtering twice is filtering once |
| CollectReviews.FilteredCount | data_collection/collect_reviews.py:96-101 | `filtered_count` equals the number of manuscripts with too few reviews |
| CollectReviews.CountShort | data_collection/collect_reviews.py:96-101 | the manuscripts with fewer than `min_reviews` reviews; equal to `filtered_count` by `FilteredCount` |
| CollectReviews.Gathered | data_collection/collect_reviews.py:64-91 | what one enabled source adds to the manuscripts and metadata; used in `CollectAll`'s contract |
| CollectReviews.CollectAll | data_collection/collect_reviews.py:48-101 | each enabled collector runs `collect_manuscripts` with the configured count, subject areas, start date and rate-limit delay. eLife results come first, then F1000Research. The filter applies only when configured. `filtered_count` = original − kept = the number of manuscripts with too few reviews. Metadata are in source order |
| CollectReviews.SourceValueInjective | data_collection/schema.py:12-17 | different sources have different values, so `by_source` keys do not collide |
| CollectReviews.BySourceCounts | data_collection/collect_reviews.py:199-211 | each source's tally counts that source's manuscripts and their reviews, and `with_reviews <= count` |
| CollectReviews.CountManuscriptTally | data_collection/collect_reviews.py:200-211 | one iteration changes only the tally of the manuscript's own source, and by exactly one manuscript and its reviews |
| CollectReviews.BySourceKeys | data_collection/collect_reviews.py:199-211 | every key of `by_source` is a source value |
| CollectReviews.SourcesPartition | data_collection/collect_reviews.py:199-211 | each manuscript belongs to exactly one source, so per-source counts and reviews sum to the totals |
| CollectReviews.BySourceSums | data_collection/collect_reviews.py:192-211 | the `by_source` counts sum to the number of manuscripts, and their `total_reviews` to `total_reviews` |
| CollectReviews.BySource | data_collection/collect_reviews.py:199-211 | the `by_source` dict after the first `n` manuscripts; properties in `BySourceCounts`, `BySourceKeys` and `BySourceSums` |
| CollectReviews.TotalReviews | data_collection/collect_reviews.py:192 | `sum(len(m.reviews) ...)`; split by source in `SourcesPartition` and `BySourceSums` |
| CollectReviews.TotalReviewWords | data_collection/collect_reviews.py:193-196 | the sum of all reviews' word counts; it is `total_review_words` by `GenerateSummaryStats` |
| CollectReviews.CountMultiple | data_collection/collect_reviews.py:214-216 | at most `total_manuscripts` |
| CollectReviews.CountDisagreement | data_collection/collect_reviews.py:217-219 | the disagreement count never exceeds the count of manuscripts with at least two reviews |
| CollectReviews.DisagreementNeedsTwoReviews | data_collection/schema.py:147-150 | a disagreeing manuscript has at least two reviews |
| CollectReviews.IssueEntriesStep | data_collection/collect_reviews.py:223-230 | a manuscript gets an entry, with its id, source value and issues, exactly when `validate` reports something |
| CollectReviews.IssueEntriesCount | data_collection/collect_reviews.py:222-242 | `manuscripts_with_validation_issues` counts exactly the incomplete manuscripts, and every entry has issues |
| CollectReviews.CountIncomplete | data_collection/collect_reviews.py:223-230 | the number of incomplete manuscripts; IssueEntriesCount proves it equals the number of validation entries |
| CollectReviews.IssueEntries | data_collection/collect_reviews.py:222-230 | the validation entries of the first `n` manuscripts; properties in `IssueEntriesStep` and `IssueEntriesCount` |
| CollectReviews.RunSummaries | data_collection/collect_reviews.py:244-253 | one summary per metadata record; `error_count` is the number of its errors |
| CollectReviews.Average | data_collection/collect_reviews.py:237-238 | 0 when dividing by zero, otherwise the exact quotient |
| CollectReviews.TallySources | data_collection/collect_reviews.py:199-211 | the `by_source` loop computes `BySource` |
| CollectReviews.CountInto | data_collection/collect_reviews.py:200-211 | one loop body computes `CountManuscript` |
| CollectReviews.CollectValidationIssues | data_collection/collect_reviews.py:222-230 | the validation loop computes `IssueEntries` |
| CollectReviews.AddIssueEntry | data_collection/collect_reviews.py:223-230 | one loop body appends an entry exactly when the manuscript has issues |
| CollectReviews.GenerateSummaryStats | data_collection/collect_reviews.py:185-256 | the timestamp is the one given, and every other entry of the summary is its reference. The totals are sums. Averages are 0 instead of dividing by zero. The validation-issue count covers all manuscripts but only the first ten entries are kept |
| PrepareInput.Elements | docetl_pipeline/prepare_input.py:32 | iteration succeeds for a list (its items) and for an empty `str`/`dict`; anything else is a TypeError |
| PrepareInput.ContextMeaning | docetl_pipeline/prepare_input.py:33-42 | a manuscript's context exists exactly for a dict with id, sliceable title and iterable reviews. `abstract`/`doi` default to `''` only when absent. A missing id is a `KeyError('manuscript_id')` |
| PrepareInput.Context | docetl_pipeline/prepare_input.py:33-42 | the lookups before the inner loop; characterised in `ContextMeaning` |
| PrepareInput.BuildRecord | docetl_pipeline/prepare_input.py:44-65 | a record is built exactly for a well-formed review. Manuscript fields come from the context and review fields from the review. Name, affiliation and recommendation are `None` when absent, and version is 1 only when absent. A non-dict review is a TypeError |
| PrepareInput.Less | docetl_pipeline/prepare_input.py:87 | `<` is defined between numbers (and booleans) and between strings; otherwise TypeError |
| PrepareInput.WordCounts | docetl_pipeline/prepare_input.py:87 | the word counts are those of the records, in order |
| PrepareInput.ReviewsPerManuscript | docetl_pipeline/prepare_input.py:81 | the average times the manuscript count gives the number of reviews, and is at least 1 when there are no fewer reviews than manuscripts |
| PrepareInput.RecordsOfFailureSticks | docetl_pipeline/prepare_input.py:42-67 | once a review raises, the manuscript raises that exception |
| PrepareInput.FlattenFailureSticks | docetl_pipeline/prepare_input.py:32-67 | once a manuscript raises, the whole preparation raises that exception |
| PrepareInput.ConcatFailureSticks | docetl_pipeline/prepare_input.py:32-67 | the generic form: a raised part stops the join with that exception |
| PrepareInput.RecordsOfStep | docetl_pipeline/prepare_input.py:42-67 | one review appends its record |
| PrepareInput.FlattenStep | docetl_pipeline/prepare_input.py:32-67 | one manuscript appends its records after those before it |
| PrepareInput.PrepareRaises | docetl_pipeline/prepare_input.py:32-75 | an exception while flattening ends the run before the file is written |
| PrepareInput.AppendManuscriptRecords | docetl_pipeline/prepare_input.py:42-67 | the inner loop appends the manuscript's records to those already built, or returns its first exception |
| PrepareInput.PrepareReviewsForPipeline | docetl_pipeline/prepare_input.py:15-89 | the nested loops and the statistics compute the reference outcome `Prepare` |
| PrepareInput.Prepare | docetl_pipeline/prepare_input.py:15-89 | the reference outcome of the step; the loops compute it by `PrepareReviewsForPipeline`, and its failure cases are `PrepareRaises` and `NoRecordsDivideByZero` |
| PrepareInput.RecordsOfShape | docetl_pipeline/prepare_input.py:42-67 | one record per review, the j-th built from review j |
| PrepareInput.RecordsOf | docetl_pipeline/prepare_input.py:42-67 | the records of one manuscript, or the first exception; RecordsOfShape and RecordsOfFailureSticks |
| PrepareInput.ManuscriptRecords | docetl_pipeline/prepare_input.py:33-67 | all records of one manuscript; ManuscriptRecordsShape |
| PrepareInput.ManuscriptRecordsShape | docetl_pipeline/prepare_input.py:42-67 | one manuscript gives one record per review, in review order |
| PrepareInput.RecordsCount | docetl_pipeline/prepare_input.py:42-67 | a manuscript's records number its reviews |
| PrepareInput.ConcatExtends | docetl_pipeline/prepare_input.py:32-67 | a successful join extends the join before it by the last part |
| PrepareInput.ConcatParts | docetl_pipeline/prepare_input.py:32-67 | a join succeeds only if every part does |
| PrepareInput.ConcatShape | docetl_pipeline/prepare_input.py:30-67 | a join is as long as its parts' sizes add up to |
| PrepareInput.ConcatOrder | docetl_pipeline/prepare_input.py:32-67 | part `i` sits, unchanged, at the total size of the parts before it |
| PrepareInput.AllRecordsCount | docetl_pipeline/prepare_input.py:42-67 | every manuscript whose records were built has one per review |
| PrepareInput.FlattenShape | docetl_pipeline/prepare_input.py:30-67 | the number of records is the sum of the manuscripts' review counts |
| PrepareInput.Flatten | docetl_pipeline/prepare_input.py:30-67 | `review_records` after the first `n` manuscripts; FlattenShape, FlattenOrder, FlattenParts and FlattenFailureSticks |
| PrepareInput.FlattenParts | docetl_pipeline/prepare_input.py:32-67 | a successful flattening built every manuscript's records |
| PrepareInput.FlattenOrder | docetl_pipeline/prepare_input.py:32-67 | manuscripts in order, and within each its records in review order, starting at the number of reviews before it |
| PrepareInput.RecordCarriesContext | docetl_pipeline/prepare_input.py:44-61 | the record for review `j` of manuscript `i` carries that manuscript's id, title, abstract and doi, and that review's id, text and word count |
| PrepareInput.IdKeysSize | docetl_pipeline/prepare_input.py:80 | between 1 and `len(records)` distinct manuscript ids for non-empty records |
| PrepareInput.IdKeys | docetl_pipeline/prepare_input.py:80 | the set of manuscript ids; IdKeysSize and IdKeysHashable |
| PrepareInput.NoRecordsDivideByZero | docetl_pipeline/prepare_input.py:74-81 | with no review records the run fails with ZeroDivisionError after the file was written |
| PrepareInput.MinOfNumbers | docetl_pipeline/prepare_input.py:87 | on numbers `min` succeeds and returns an element no element is below |
| PrepareInput.MaxOfNumbers | docetl_pipeline/prepare_input.py:87 | on numbers `max` succeeds and returns an element no element is above |
| PrepareInput.MinOf | docetl_pipeline/prepare_input.py:87 | `min(xs[:n])`; on numbers it succeeds with a least element by `MinOfNumbers` |
| PrepareInput.MaxOf | docetl_pipeline/prepare_input.py:87 | `max(xs[:n])`; on numbers it succeeds with a greatest element by `MaxOfNumbers` |
| PrepareInput.StatisticsOfNumbers | docetl_pipeline/prepare_input.py:80-87 | with hashable ids and numeric word counts, the statistics exist. Manuscripts number between 1 and the record count, averaging at least one review each. The word-count range spans every record |
| PrepareInput.Statistics | docetl_pipeline/prepare_input.py:80-87 | the printed statistics; properties in `StatisticsOfNumbers`, `IdKeysSize` and `NoRecordsDivideByZero` |
| PrepareInput.IdKeysHashable | docetl_pipeline/prepare_input.py:80 | building the id set succeeds when no id is a list or dict |
| PrepareInput.ContextOf | docetl_pipeline/prepare_input.py:103-112 | a context exists exactly for a dict with `manuscript_id`, `title`, `reviews`, `source` and `source_url`, whose reviews have a length. `num_reviews` is the length of the reviews list, not the stored field. `abstract`/`doi`/`authors` take their defaults only when absent |
| PrepareInput.ContextsFailureSticks | docetl_pipeline/prepare_input.py:102-113 | once a manuscript raises, the context file is not produced and that exception is raised |
| PrepareInput.CreateManuscriptContexts | docetl_pipeline/prepare_input.py:92-119 | the loop computes the reference `Contexts`, or the iteration's TypeError |
| PrepareInput.ContextsShape | docetl_pipeline/prepare_input.py:102-113 | succeeds exactly when every manuscript has a context; then one context per manuscript, in input order |
| PrepareInput.Contexts | docetl_pipeline/prepare_input.py:102-113 | the contexts of the first `n` manuscripts or the first exception; properties in `ContextsShape` and `ContextsFailureSticks` |
| AnalyzeResults.LoadResults | docetl_pipeline/analyze_results.py:18-21 | a list is returned unchanged, anything else becomes a one-element list |
| AnalyzeResults.IssueItems | docetl_pipeline/analyze_results.py:39-42 | iterating the major issues reaches as many items as `len` counts, or raises for a non-empty string or dict |
| AnalyzeResults.EvidenceCount | docetl_pipeline/analyze_results.py:40-43 | the count succeeds exactly when every issue can be inspected, and is at most the number of issues |
| AnalyzeResults.EvidencedCount | docetl_pipeline/analyze_results.py:40-43 | at most the number of issues |
| AnalyzeResults.EvidenceCountCounts | docetl_pipeline/analyze_results.py:40-43 | a successful count means every issue is a dict, and it counts exactly those whose excerpts are truthy |
| AnalyzeResults.Coverage | docetl_pipeline/analyze_results.py:45-48 | the coverage lies in [0, 100]. It is 100 with no issues, and otherwise exactly `100 × evidenced / total` |
| AnalyzeResults.AnalyzeBrief | docetl_pipeline/analyze_results.py:24-57 | a non-dict brief raises AttributeError. The counts are the lengths of the lists (0 when missing). The title is `manuscript_title[:80]` (for a string, its first 80 characters). Confidence defaults to `unknown`, coverage is in [0, 100], and the validation fields exist exactly when `validation_passed` is present and not null |
| AnalyzeResults.ListLength | docetl_pipeline/analyze_results.py:30-34 | a missing key counts 0 and a list counts its items. The length exists exactly when the value is missing or is a str, list or dict; otherwise `len` raises TypeError |
| AnalyzeResults.CoverageIsEvidencedShare | docetl_pipeline/analyze_results.py:39-48 | coverage is exactly the percentage of major issues with non-empty evidence |
| AnalyzeResults.Analyses | docetl_pipeline/analyze_results.py:63 | one analysis per brief, each that brief's `analyze_brief` |
| AnalyzeResults.Counts | docetl_pipeline/analyze_results.py:67-73 | one count per analysis |
| AnalyzeResults.CoverageScores | docetl_pipeline/analyze_results.py:77 | the coverage of each analysis, in order |
| AnalyzeResults.SummaryTotals | docetl_pipeline/analyze_results.py:65-80 | total briefs is the count. With no analyses the four totals, every average and the coverage range are 0. Otherwise each average times the count is its total. SummaryTotalsAppend shows each total is the sum of the per-brief counts |
| AnalyzeResults.SumAppend | docetl_pipeline/analyze_results.py:67-70 | `sum` adds left to right: one more value adds exactly that value |
| AnalyzeResults.CountsAppend | docetl_pipeline/analyze_results.py:67-70 | one more analysis adds exactly its own count to the sum of that count |
| AnalyzeResults.SummaryTotalsAppend | docetl_pipeline/analyze_results.py:67-70 | one more brief raises the major-issue, minor-issue, disagreement and action-item totals by exactly its own counts. With the zero case of SummaryTotals, each total is the sum of the per-brief counts |
| AnalyzeResults.Mean | docetl_pipeline/analyze_results.py:70-77 | 0 for no values; otherwise the mean times the number of values is their sum |
| AnalyzeResults.SumAtLeast | docetl_pipeline/analyze_results.py:78-79 | a sum is at least count × minimum |
| AnalyzeResults.SumAtMost | docetl_pipeline/analyze_results.py:78-80 | a sum is at most count × maximum |
| AnalyzeResults.CoverageMeanBetween | docetl_pipeline/analyze_results.py:77-80 | min coverage <= mean coverage <= max coverage for a non-empty list |
| AnalyzeResults.MinMaxWithin | docetl_pipeline/analyze_results.py:79-80 | the min and max of coverages in [0, 100] are in [0, 100] |
| AnalyzeResults.SumValues | docetl_pipeline/analyze_results.py:86 | `sum` succeeds exactly when every value is a number or a boolean |
| AnalyzeResults.PassedCount | docetl_pipeline/analyze_results.py:84 | at most the number of analyses |
| AnalyzeResults.Confidences | docetl_pipeline/analyze_results.py:86 | one confidence per analysis |
| AnalyzeResults.ValidationSummary | docetl_pipeline/analyze_results.py:83-86 | the entries exist exactly when every validation confidence is a number or a boolean; otherwise `sum` raises TypeError. The pass rate is in [0, 100], and times the number of analyses it is exactly 100 × passed. The average confidence times the number of analyses is the sum of the confidences |
| AnalyzeResults.Percent | docetl_pipeline/analyze_results.py:85 | a percentage of a part of a non-empty whole lies in [0, 100] and is exact |
| AnalyzeResults.Tally | docetl_pipeline/analyze_results.py:89 | `Counter` succeeds exactly when every key is hashable |
| AnalyzeResults.SumOverWithout | docetl_pipeline/analyze_results.py:89-90 | a counter's sum splits off any one key |
| AnalyzeResults.SumOverAgree | docetl_pipeline/analyze_results.py:89-90 | counters that agree on a set of keys have the same sum over it |
| AnalyzeResults.TotalIncrement | docetl_pipeline/analyze_results.py:89 | counting one more key adds one to the total |
| AnalyzeResults.TallyTotal | docetl_pipeline/analyze_results.py:89-90 | the counter's counts sum to the number of keys counted |
| AnalyzeResults.TallyCounts | docetl_pipeline/analyze_results.py:89-90 | a key is in the counter exactly when it occurs, and its count is its number of occurrences |
| AnalyzeResults.GenerateSummary | docetl_pipeline/analyze_results.py:60-92 | an empty brief list raises IndexError at `analyses[0]`. Otherwise there is one analysis per brief, `total_briefs` is their number, and the validation entries exist exactly when the first analysis has them |
| AnalyzeResults.DistributionCountsEveryBrief | docetl_pipeline/analyze_results.py:89-90 | `confidence_distribution`'s counts sum to `total_briefs` |
| AnalyzeResults.SummaryCoverageWithin | docetl_pipeline/analyze_results.py:77-80 | 0 <= min <= avg <= max <= 100 for the summary's coverage |
| PyData.Index | docetl_pipeline/prepare_input.py:33 | `v['k']` succeeds exactly for a dict holding `k`, with its value; a dict without it raises `KeyError('k')` |
| PyData.Get | docetl_pipeline/prepare_input.py:35 | `.get` succeeds exactly on a dict, returning the value or the default |
| PyData.Lookup | docetl_pipeline/prepare_input.py:35-36 | the value when present (even `None`), the default only when absent |
| PyData.Len | docetl_pipeline/analyze_results.py:30 | `len` is defined exactly for `str`, `list` and `dict` |
| PyData.TruthyIsNonEmpty | docetl_pipeline/analyze_results.py:42 | a sized value is truthy exactly when non-empty |
| PyData.SliceTo | docetl_pipeline/analyze_results.py:29 | `[:n]` of a string is a prefix of at most `n` characters, and a short string is unchanged |
| PyData.HashKey | docetl_pipeline/analyze_results.py:89 | lists and dicts are unhashable; a boolean files under its number |
| PyData.AsNumber | docetl_pipeline/analyze_results.py:86 | `sum` adds numbers and booleans only |
| PyData.OptStr | data_collection/schema.py:93 | an optional string is JSON |
| PyData.StrList | data_collection/schema.py:94 | a list of strings is a JSON list of the same length |
| PyData.OptStrList | data_collection/collectors/elife_collector.py:73 | an optional list of strings is JSON |
| Text.Strip | data_collection/schema.py:166 | `strip` never lengthens |
| Text.StripEnds | data_collection/schema.py:166 | a stripped string neither starts nor ends with whitespace, and is empty exactly for blank input |
| Text.Words | data_collection/schema.py:60 | `split()` yields non-empty whitespace-free words, and none exactly for blank text |
| Text.WordsKeepNonSpace | data_collection/schema.py:60 | the words together are exactly the non-whitespace characters, in order |
| Text.Split | data_collection/collectors/f1000_collector.py:311 | `split(',')` gives commas + 1 comma-free pieces |
| Text.JoinSplit | data_collection/collectors/f1000_collector.py:311 | joining the pieces with the separator gives back the text |
| Text.Lower | data_collection/collectors/elife_collector.py:344 | each character is lower-cased, length kept |
| Text.DecimalString | data_collection/collectors/elife_collector.py:315 | `str(n)` is a non-empty digit string, two or more digits exactly from 10 |
| Text.DecimalStringInjective | data_collection/collectors/elife_collector.py:315-321 | different numbers are written differently |
| Text.SearchRun | data_collection/collectors/elife_collector.py:149 | no match exactly when the prefix is nowhere followed by a run character; a match is a non-empty run that follows the prefix in the text. Which occurrence and how long a run is stated by SearchRunAtFirstMatch |
| Text.SearchRunHere | data_collection/collectors/elife_collector.py:149 | when the prefix starts the text and is followed by a run character, the match is the longest run right after the prefix |
| Text.SearchRunSkip | data_collection/collectors/elife_collector.py:149 | when the text does not match at its first position, searching it gives what searching its tail gives |
| Text.SearchRunSkipTo | data_collection/collectors/elife_collector.py:149 | skipping positions where no match starts leaves the search result unchanged |
| Text.SearchRunAtFirstMatch | data_collection/collectors/f1000_collector.py:147-149 | at the leftmost position where the prefix is followed by a run character, the search returns the longest run right after that prefix. This is the id `match.group(1)` yields in both collectors |

## Left out

- The synthesis stages (claim extraction, deduplication, brief synthesis, validation) run in an external tool driven by a YAML file, and have no Python source here.
- HTTP and HTML:
  - sessions, status codes, BeautifulSoup's tag selection and regular expressions over HTML are inputs;
  - each page is the texts and attribute values the rules read, `None` when the fetch raised;
  - `collect_single_manuscript`, as seen by `collect_manuscripts`, is a function parameter.
- The title, abstract, DOI and publication-date extractors of both collectors return what the page gives. They are inputs of the page records.
- `time.sleep` is modelled only by its one effect on the counters: it raises for a negative delay. The waiting, and a NaN delay, are left out. The `OverflowError` Python raises for a delay too large to convert is not modelled either: every non-negative delay is accepted.
- Logging and console output are left out. This covers `validate()`'s call inside the collection loops, which only logs, `_print_summary`, `print_report` and the progress lines of `prepare_input.py`.
- File I/O is left out:
  - `_save_results` and the run README;
  - `json.load`/`json.dump`;
  - `main` of `prepare_input.py` and `analyze_results.py`;
  - `export_summary`.

  The loaded JSON is a parameter.
- `datetime.now()` (collection ids, start and end times, `collection_date`, `collection_timestamp`) is a parameter.
- `web_ui/app.py` (routes, a background thread, subprocesses), `analyze_collected_data.py`, `test_collection.py`, the preset configurations of `config.py` other than the defaults, and the `__init__.py` re-exports are not part of this model.
- `Text.Lower` folds ASCII letters only, and the regular-expression `\d` matches ASCII digits only. Python also folds and matches other Unicode characters. `Text.IsSpace` lists the code points of `str.isspace`.
- PyData.SliceTo: slicing a dict (`title[:80]` on a dict-valued title) raises TypeError, as in Python 3.11 and earlier. From Python 3.12 slices are hashable and the same expression raises `KeyError(slice(None, 80, None))`, which the model does not produce.
- Python's `int` and `float` are both exact `real`s. Float rounding is not modelled, and neither is the difference between `100` and `100.0`.
- `PrepareInput.Less` raises for lists, which Python compares element by element. `min`/`max` over list-valued word counts is therefore not modelled.
- `AnalyzeResults.Tally` files a key under one representative of its equal keys (`True == 1`). Python keeps the first key inserted as the dict key, and the model does not keep that choice.
- `F1000Collector.InfoRepr` writes the dict's `repr` with plain single quotes. It does not reproduce Python's escaping of quotes and backslashes inside the values.
- `collect_all`'s two `except` branches are not modelled: `collect_manuscripts` and `_discover_articles` catch their own exceptions (`elife_collector.py:83-115`, `f1000_collector.py:84-117`), so nothing reaches them once fetching and logging are parameters.
- Dict key order, and with it the order of entries in written JSON, is not modelled: dictionaries are maps.
