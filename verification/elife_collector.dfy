/**
 * The eLife collector: article discovery over the reviewed-preprints and
 * articles listings with its duplicate check and fallback, the
 * bookkeeping loop of `collect_manuscripts`, and the rules that turn what
 * BeautifulSoup finds on an article page into a manuscript (authors,
 * reviewer anonymity, the kept reviews, the eLife assessment's
 * significance and strength, author responses). The page itself is given
 * as the texts and attribute values those rules read.
 */
module ElifeCollector {
  import opened Wrappers
  import opened Text
  import opened Schema
  import opened Collectors

  const BaseUrl := "https://elifesciences.org"

  /** The article identifiers used when discovery finds fewer than five. */
  const FallbackIds := ["97433", "95132", "93215", "89376", "86956"]

  // -------------------------------------------------------------- discovery

  /** The identifier each link carries: the digits after `prefix` in its `href`. */
  function LinkIds(hrefs: seq<string>, prefix: string): (r: seq<Option<string>>)
    ensures |r| == |hrefs|
  {
    seq(|hrefs|, k requires 0 <= k < |hrefs| => SearchRun(hrefs[k], prefix, false))
  }

  /** `ids` extended by the identifiers of the first `n` links that it does not hold yet. */
  function AddNew(ids: seq<string>, found: seq<Option<string>>, n: nat): seq<string>
    requires n <= |found|
  {
    if n == 0 then ids else Hold(AddNew(ids, found, n - 1), found[n - 1])
  }

  /** `held` with the identifier a link carries, unless there is none or it is already held. */
  function Hold(held: seq<string>, m: Option<string>): seq<string> {
    if m.Some? && m.value !in held then held + [m.value] else held
  }

  /**
   * What discovery holds before the fallback: the reviewed-preprints
   * listing, then the articles listing only while fewer than
   * `numArticles` are held; `None` is a listing that could not be fetched
   * (when the first one fails, the second is never asked for).
   */
  function Found(numArticles: int, preprints: Option<seq<string>>, articles: Option<seq<string>>): seq<string> {
    if preprints.None? then []
    else
      var first := AddNew([], LinkIds(preprints.value, "/reviewed-preprints/"), |preprints.value|);
      if |first| < numArticles && articles.Some? then
        AddNew(first, LinkIds(articles.value, "/articles/"), |articles.value|)
      else first
  }

  /** The fallback identifiers are appended, without a duplicate check, when fewer than five were found. */
  function WithFallback(ids: seq<string>): seq<string> {
    if |ids| < 5 then ids + FallbackIds else ids
  }

  /** `_discover_articles`, given the `href`s of each listing page's article links. */
  method DiscoverArticles(numArticles: int, preprints: Option<seq<string>>, articles: Option<seq<string>>)
    returns (articleIds: seq<string>)
    ensures articleIds == WithFallback(Found(numArticles, preprints, articles))
  {
    articleIds := [];
    if preprints.Some? {
      articleIds := AddLinkIds(articleIds, preprints.value, "/reviewed-preprints/");
      if |articleIds| < numArticles && articles.Some? {
        articleIds := AddLinkIds(articleIds, articles.value, "/articles/");
      }
    }
    if |articleIds| < 5 {
      articleIds := articleIds + FallbackIds;
    }
  }

  /** One link loop of `_discover_articles`: append each new identifier. */
  method AddLinkIds(ids: seq<string>, hrefs: seq<string>, prefix: string) returns (articleIds: seq<string>)
    ensures articleIds == AddNew(ids, LinkIds(hrefs, prefix), |hrefs|)
  {
    articleIds := ids;
    for i := 0 to |hrefs|
      invariant articleIds == AddNew(ids, LinkIds(hrefs, prefix), i)
    {
      articleIds := AddLinkId(articleIds, hrefs, prefix, i);
    }
  }

  /** The body of the link loop: hold the link's identifier unless it is already held. */
  method AddLinkId(ids: seq<string>, hrefs: seq<string>, prefix: string, i: nat) returns (articleIds: seq<string>)
    requires i < |hrefs|
    ensures articleIds == Hold(ids, LinkIds(hrefs, prefix)[i])
  {
    articleIds := ids;
    var m := SearchRun(hrefs[i], prefix, false);
    if m.Some? && m.value !in articleIds {
      articleIds := articleIds + [m.value];
    }
  }

  predicate NoDuplicates(ids: seq<string>) {
    forall j, k :: 0 <= j < k < |ids| ==> ids[j] != ids[k]
  }

  /**
   * The loop keeps what it held in front, adds no duplicate, and ends up
   * holding exactly what it held plus every identifier a link carried.
   */
  lemma {:induction false} AddNewShape(ids: seq<string>, found: seq<Option<string>>, n: nat)
    requires n <= |found|
    ensures var r := AddNew(ids, found, n); |ids| <= |r| && r[..|ids|] == ids
    ensures NoDuplicates(ids) ==> NoDuplicates(AddNew(ids, found, n))
    ensures forall x :: x in AddNew(ids, found, n) <==>
      x in ids || exists k :: 0 <= k < n && found[k] == Some(x)
  {
    if n != 0 {
      AddNewShape(ids, found, n - 1);
      var held := AddNew(ids, found, n - 1);
      var r := AddNew(ids, found, n);
      assert r[..|held|] == held;
      forall x ensures x in r <==> x in ids || exists k :: 0 <= k < n && found[k] == Some(x) {
        if found[n - 1] == Some(x) {
          assert x in r;
        }
      }
    }
  }

  /**
   * Discovered identifiers are free of duplicates unless the fallback was
   * used, number at least five, and the articles listing is consulted
   * only when the reviewed-preprints listing gave fewer than `numArticles`.
   */
  lemma DiscoveryShape(numArticles: int, preprints: Option<seq<string>>, articles: Option<seq<string>>, other: Option<seq<string>>)
    ensures |WithFallback(Found(numArticles, preprints, articles))| >= 5
    ensures NoDuplicates(Found(numArticles, preprints, articles))
    ensures preprints.Some? ==>
      var first := AddNew([], LinkIds(preprints.value, "/reviewed-preprints/"), |preprints.value|);
      |first| >= numArticles ==> Found(numArticles, preprints, articles) == Found(numArticles, preprints, other)
  {
    if preprints.Some? {
      var first := AddNew([], LinkIds(preprints.value, "/reviewed-preprints/"), |preprints.value|);
      AddNewShape([], LinkIds(preprints.value, "/reviewed-preprints/"), |preprints.value|);
      if articles.Some? {
        AddNewShape(first, LinkIds(articles.value, "/articles/"), |articles.value|);
      }
    }
  }

  /** The fallback is not checked against what was found: an identifier found and in the fallback list appears twice. */
  lemma FallbackMayRepeat(ids: seq<string>, k: nat)
    requires |ids| < 5 && k < |ids| && ids[k] == "97433"
    ensures !NoDuplicates(WithFallback(ids))
  {
    var r := WithFallback(ids);
    assert r[k] == ids[k];
    assert r[|ids|] == FallbackIds[0] == "97433";
  }

  // ----------------------------------------------------- collect_manuscripts

  /** The attempts of the loop: failures of either kind are logged by the article identifier. */
  function Attempts(batch: seq<string>, collect: string -> Option<Manuscript>): (r: seq<Attempt>)
    ensures |r| == |batch|
    ensures forall k :: 0 <= k < |batch| ==> r[k] == Attempt(batch[k], batch[k], collect(batch[k]))
  {
    seq(|batch|, k requires 0 <= k < |batch| => Attempt(batch[k], batch[k], collect(batch[k])))
  }

  /**
   * What one eLife run reads from outside: the `href`s of the two listing
   * pages (`None` when a fetch raised), `collect_single_manuscript` for
   * each identifier, and the clock readings.
   */
  datatype Site = Site(
    preprints: Option<seq<string>>,
    articles: Option<seq<string>>,
    collect: string -> Option<Manuscript>,
    collectionId: string,
    startTime: string,
    endTime: string)

  /** The identifiers the loop processes: `article_ids[:num_manuscripts]` of what discovery returns. */
  function Batch(numManuscripts: int, site: Site): seq<string> {
    PyTake(WithFallback(Found(numManuscripts, site.preprints, site.articles)), numManuscripts)
  }

  /** What `collect_manuscripts` returns: the collected manuscripts and the finished metadata. */
  function Collection(numManuscripts: int, subjectAreas: Option<seq<string>>, startDate: Option<string>, site: Site, delay: real)
    : (seq<Manuscript>, CollectionMetadata)
  {
    var batch := Batch(numManuscripts, site);
    var t := Run(Attempts(batch, site.collect), |batch|, delay);
    (t.manuscripts, Finished(t, site.collectionId, Elife, site.startTime, site.endTime, RunConfig(numManuscripts, subjectAreas, startDate)))
  }

  /**
   * `collect_manuscripts`: discovers identifiers for `num_manuscripts`,
   * then processes the first `num_manuscripts` of them.
   */
  method CollectManuscripts(numManuscripts: int, subjectAreas: Option<seq<string>>, startDate: Option<string>, site: Site, delay: real)
    returns (manuscripts: seq<Manuscript>, metadata: CollectionMetadata)
    ensures (manuscripts, metadata) == Collection(numManuscripts, subjectAreas, startDate, site, delay)
  {
    var articleIds := DiscoverArticles(numManuscripts, site.preprints, site.articles);
    var batch := PyTake(articleIds, numManuscripts);
    ghost var attempts := Attempts(batch, site.collect);
    manuscripts := [];
    var attempted, successful, failed := 0, 0, 0;
    var errors: seq<ErrorEntry> := [];
    var i := 0;
    while i < |batch|
      invariant 0 <= i <= |batch|
      invariant Run(attempts, i, delay) == Tally(manuscripts, attempted, successful, failed, errors)
    {
      var articleId := batch[i];
      attempted := attempted + 1;
      var manuscript := site.collect(articleId);
      if manuscript.Some? {
        manuscripts := manuscripts + [manuscript.value];
        successful := successful + 1;
      } else {
        failed := failed + 1;
        errors := errors + [ErrorEntry(articleId, FailedToCollect)];
      }
      if delay < 0.0 {
        // `time.sleep` raised: the handler counts the article once more as failed
        failed := failed + 1;
        errors := errors + [ErrorEntry(articleId, SleepError)];
      }
      i := i + 1;
    }
    metadata := CollectionMetadata(
      site.collectionId, Elife, site.startTime, Some(site.endTime), attempted, successful, failed, errors,
      RunConfig(numManuscripts, subjectAreas, startDate));
  }

  /**
   * A run attempts exactly the identifiers `[:num_manuscripts]` selects
   * from discovery: never more than a non-negative `num_manuscripts`, and
   * at least five when it asks for that many, since discovery always
   * returns five. Every failure is paired with one error entry naming a
   * processed article, and with a usable delay each attempt counts once as
   * a success or a failure.
   */
  lemma CollectionCounts(numManuscripts: int, subjectAreas: Option<seq<string>>, startDate: Option<string>, site: Site, delay: real)
    ensures var c := Collection(numManuscripts, subjectAreas, startDate, site, delay);
      var md := c.1;
      && md.numAttempted == |Batch(numManuscripts, site)|
      && (numManuscripts >= 0 ==> md.numAttempted <= numManuscripts)
      && (numManuscripts >= 0 ==> md.numAttempted >= if numManuscripts < 5 then numManuscripts else 5)
      && md.numFailed == |md.errors|
      && md.numSuccessful == |c.0|
      && (delay >= 0.0 ==> md.numSuccessful + md.numFailed == md.numAttempted)
      && (forall k :: 0 <= k < |md.errors| ==> md.errors[k].articleId in Batch(numManuscripts, site))
  {
    var batch := Batch(numManuscripts, site);
    var attempts := Attempts(batch, site.collect);
    DiscoveryShape(numManuscripts, site.preprints, site.articles, site.articles);
    RunBookkeeping(attempts, |batch|, delay);
    forall k | 0 <= k < |Run(attempts, |batch|, delay).errors|
      ensures Run(attempts, |batch|, delay).errors[k].articleId in batch
    {
      ErrorsName(attempts, |batch|, delay, k);
    }
  }

  /** Every error entry names the article of one of the attempts. */
  lemma {:induction false} ErrorsName(attempts: seq<Attempt>, n: nat, delay: real, k: nat)
    requires n <= |attempts|
    requires forall j :: 0 <= j < |attempts| ==> attempts[j].entry == attempts[j].raisedEntry
    requires k < |Run(attempts, n, delay).errors|
    ensures exists j :: 0 <= j < n && Run(attempts, n, delay).errors[k].articleId == attempts[j].entry
  {
    if k < |Run(attempts, n - 1, delay).errors| {
      ErrorsName(attempts, n - 1, delay, k);
    } else {
      assert Run(attempts, n, delay).errors[k].articleId == attempts[n - 1].entry;
    }
  }

  // ---------------------------------------------------------------- authors

  /**
   * `_extract_authors`: the first ten of the author tags' texts longer
   * than two characters, in page order; when fewer than ten are kept,
   * every long text is among them.
   */
  function Authors(tagTexts: seq<string>): (r: seq<string>)
    ensures |r| <= 10 && forall k :: 0 <= k < |r| ==> |r[k]| > 2
    ensures var kept := LongNames(tagTexts, |tagTexts|);
      |r| == (if |kept| < 10 then |kept| else 10) && r == kept[..|r|]
    ensures |r| < 10 ==> forall k :: 0 <= k < |tagTexts| && LongName(tagTexts[k]) ==> tagTexts[k] in r
  {
    LongNamesKept(tagTexts, |tagTexts|);
    KeptMapComplete(tagTexts, LongName, (p: nat, name: string) => name, |tagTexts|);
    PyTake(LongNames(tagTexts, |tagTexts|), 10)
  }

  /** `_extract_authors` with its loop. */
  method ExtractAuthors(tagTexts: seq<string>) returns (authors: seq<string>)
    ensures authors == Authors(tagTexts)
  {
    authors := [];
    var i := 0;
    while i < |tagTexts|
      invariant 0 <= i <= |tagTexts|
      invariant authors == LongNames(tagTexts, i)
    {
      if |tagTexts[i]| > 2 {
        authors := authors + [tagTexts[i]];
      }
      i := i + 1;
    }
    authors := PyTake(authors, 10);
  }

  // --------------------------------------------------------------- reviewer

  /** A non-empty run of ASCII digits. */
  predicate Digits(s: string) {
    s != [] && forall i :: 0 <= i < |s| ==> IsDigit(s[i])
  }

  /** `re.match('^' + word + r'\d+$', t)`: `$` also accepts one final newline. */
  predicate NumberedAs(t: string, word: string) {
    && StartsWith(t, word)
    && (Digits(t[|word|..]) || (|t| > |word| && t[|t| - 1] == '\n' && Digits(t[|word|..|t| - 1])))
  }

  /** A heading that names no one: `Reviewer N` or `Review N`. */
  predicate NumberedHeading(t: string) {
    NumberedAs(t, "Reviewer ") || NumberedAs(t, "Review ")
  }

  /**
   * The reviewer name a section's heading gives (`None` for no heading):
   * any heading but a numbered one is the name.
   */
  function ReviewerName(heading: Option<string>): (name: Option<string>)
    ensures name.Some? <==> heading.Some? && !NumberedHeading(heading.value)
    ensures name.Some? ==> name == heading
  {
    if heading.Some? && !NumberedHeading(heading.value) then heading else None
  }

  /** `Reviewer N` headings leave the reviewer anonymous. */
  lemma NumberedReviewerIsAnonymous(d: string)
    requires Digits(d)
    ensures ReviewerName(Some("Reviewer " + d)) == None
    ensures ReviewerName(Some("Review " + d)) == None
  {
    assert ("Reviewer " + d)[|"Reviewer "|..] == d;
    assert ("Review " + d)[|"Review "|..] == d;
  }

  // ---------------------------------------------------------------- reviews

  /** What `_extract_reviews` reads from one review section: its heading and its text. */
  datatype Section = Section(heading: Option<string>, text: string)

  /** Only a section longer than 100 characters becomes a review. */
  predicate Substantial(s: Section) {
    |s.text| > 100
  }

  /** The review built from the section at 1-based `position`: anonymous exactly when no name was read. */
  function SectionReview(articleId: string, position: nat, s: Section): Review {
    var name := ReviewerName(s.heading);
    var reviewer := Reviewer(PositionId(articleId, "reviewer", position), name, None, name.None?);
    PostInitReview(ReviewArgs(PositionId(articleId, "review", position), reviewer, s.text, None))
  }

  /** The reviews of the first `n` sections. */
  function ReviewsOf(articleId: string, sections: seq<Section>, n: nat): seq<Review>
    requires n <= |sections|
  {
    KeptMap(sections, Substantial, (p: nat, s: Section) => SectionReview(articleId, p, s), n)
  }

  /** `_extract_reviews`. */
  method ExtractReviews(articleId: string, sections: seq<Section>) returns (reviews: seq<Review>)
    ensures reviews == ReviewsOf(articleId, sections, |sections|)
  {
    reviews := [];
    var i := 0;
    while i < |sections|
      invariant 0 <= i <= |sections|
      invariant reviews == ReviewsOf(articleId, sections, i)
    {
      var section := sections[i];
      var name: Option<string> := None;
      var isAnonymous := true;
      if section.heading.Some? && !NumberedHeading(section.heading.value) {
        name := section.heading;
        isAnonymous := false;
      }
      if |section.text| > 100 {
        var reviewer := Reviewer(PositionId(articleId, "reviewer", i + 1), name, None, isAnonymous);
        reviews := reviews + [PostInitReview(ReviewArgs(PositionId(articleId, "review", i + 1), reviewer, section.text, None))];
      }
      i := i + 1;
    }
  }

  /**
   * Every kept review has more than 100 characters of text, a reviewer
   * who is anonymous exactly when the heading was missing or numbered,
   * and no recommendation; every substantial section yields its review,
   * and review identifiers never repeat.
   */
  lemma ReviewsShape(articleId: string, sections: seq<Section>)
    ensures var rs := ReviewsOf(articleId, sections, |sections|);
      forall k :: 0 <= k < |rs| ==>
        && |rs[k].reviewText| > 100
        && rs[k].wordCount == |Words(rs[k].reviewText)|
        && (rs[k].reviewer.isAnonymous <==> rs[k].reviewer.name.None?)
        && rs[k].recommendation.None?
    ensures var rs := ReviewsOf(articleId, sections, |sections|);
      forall k :: 0 <= k < |sections| && Substantial(sections[k]) ==> SectionReview(articleId, k + 1, sections[k]) in rs
    ensures var rs := ReviewsOf(articleId, sections, |sections|);
      forall j, k :: 0 <= j < k < |rs| ==> rs[j].reviewId != rs[k].reviewId
  {
    var build := (p: nat, s: Section) => SectionReview(articleId, p, s);
    KeptMapAtPositions(sections, Substantial, build, |sections|);
    KeptMapComplete(sections, Substantial, build, |sections|);
    KeptMapIdsDistinct(sections, Substantial, build, |sections|, (r: Review) => r.reviewId, articleId, "review");
  }


  // ------------------------------------------------------------- assessment

  /** The significance term of a lower-cased assessment: landmark, then important, then useful. */
  function Significance(t: string): Option<string> {
    if Contains(t, "landmark") then Some("landmark")
    else if Contains(t, "important") then Some("important")
    else if Contains(t, "useful") then Some("useful")
    else None
  }

  /** The strength term: exceptional, then solid (also for "strong"), then inadequate. */
  function Strength(t: string): Option<string> {
    if Contains(t, "exceptional") then Some("exceptional")
    else if Contains(t, "solid") || Contains(t, "strong") then Some("solid")
    else if Contains(t, "inadequate") then Some("inadequate")
    else None
  }

  /** A rating scale: each term with the words that select it, strongest first. */
  datatype Rating = Rating(term: string, words: seq<string>)

  /** The term of the strongest rating whose words the text mentions. */
  function Strongest(t: string, scale: seq<Rating>): Option<string> {
    if scale == [] then None
    else if exists w :: w in scale[0].words && Contains(t, w) then Some(scale[0].term)
    else Strongest(t, scale[1..])
  }

  const SignificanceScale := [Rating("landmark", ["landmark"]), Rating("important", ["important"]), Rating("useful", ["useful"])]
  const StrengthScale := [Rating("exceptional", ["exceptional"]), Rating("solid", ["solid", "strong"]), Rating("inadequate", ["inadequate"])]

  /**
   * The significance term is the strongest rating of its scale that the
   * text mentions, and there is one exactly when some scale word occurs.
   */
  lemma SignificanceFollowsScale(t: string)
    ensures Significance(t) == Strongest(t, SignificanceScale)
    ensures Significance(t).None? <==> !Contains(t, "landmark") && !Contains(t, "important") && !Contains(t, "useful")
  {
    var sig := SignificanceScale;
    var rest := sig[1..];
    assert rest == [sig[1], sig[2]] && rest[1..] == [sig[2]] && rest[1..][1..] == [];
    if Contains(t, "useful") {
      assert "useful" in sig[2].words;
    }
    assert Strongest(t, rest[1..]) == if Contains(t, "useful") then Some("useful") else None;
    if Contains(t, "important") {
      assert "important" in sig[1].words;
    }
    assert Strongest(t, rest) == if Contains(t, "important") then Some("important") else Strongest(t, rest[1..]);
    if Contains(t, "landmark") {
      assert "landmark" in sig[0].words;
    }
  }

  /** The strength term is the strongest rating of its scale that the text mentions. */
  lemma StrengthFollowsScale(t: string)
    ensures Strength(t) == Strongest(t, StrengthScale)
    ensures Strength(t).None? <==> !Contains(t, "exceptional") && !Contains(t, "solid") && !Contains(t, "strong") && !Contains(t, "inadequate")
  {
    var str := StrengthScale;
    var rest := str[1..];
    assert rest == [str[1], str[2]] && rest[1..] == [str[2]] && rest[1..][1..] == [];
    if Contains(t, "inadequate") {
      assert "inadequate" in str[2].words;
    }
    assert Strongest(t, rest[1..]) == if Contains(t, "inadequate") then Some("inadequate") else None;
    if Contains(t, "solid") {
      assert "solid" in str[1].words;
    } else if Contains(t, "strong") {
      assert "strong" in str[1].words;
    }
    assert Strongest(t, rest) == if Contains(t, "solid") || Contains(t, "strong") then Some("solid") else Strongest(t, rest[1..]);
    if Contains(t, "exceptional") {
      assert "exceptional" in str[0].words;
    }
  }

  /**
   * `_extract_editorial_assessment`, given the text of the assessment
   * section (`None` when the page has none): at most one assessment.
   */
  function Assessments(articleId: string, section: Option<string>): (r: seq<EditorialAssessment>)
    ensures |r| <= 1
    ensures |r| == 1 <==> section.Some?
    ensures r != [] ==>
      && r[0].assessmentText == section.value
      && r[0].significance == Significance(Lower(section.value))
      && r[0].strengthOfEvidence == Strength(Lower(section.value))
  {
    if section.None? then []
    else
      var t := Lower(section.value);
      [EditorialAssessment(articleId + "_assessment", section.value, Significance(t), Strength(t), None)]
  }

  // ------------------------------------------------------- author responses

  /** Only a response text longer than 100 characters is kept. */
  predicate LongResponse(text: string) {
    |text| > 100
  }

  /** The response built from the text at 1-based `position`. */
  function ResponseAt(articleId: string, position: nat, text: string): AuthorResponse {
    AuthorResponse(PositionId(articleId, "response", position), text, None, 1)
  }

  /** The author responses among the first `n` response sections. */
  function ResponsesOf(articleId: string, texts: seq<string>, n: nat): seq<AuthorResponse>
    requires n <= |texts|
  {
    KeptMap(texts, LongResponse, (p: nat, t: string) => ResponseAt(articleId, p, t), n)
  }

  /**
   * The author responses are exactly the texts longer than 100
   * characters, each under its position's identifier, in page order:
   * none is shorter, none is missed, and identifiers never repeat.
   */
  lemma ResponsesShape(articleId: string, texts: seq<string>, n: nat)
    requires n <= |texts|
    ensures var r := ResponsesOf(articleId, texts, n);
      |r| <= n && forall k :: 0 <= k < |r| ==> |r[k].responseText| > 100
    ensures var r := ResponsesOf(articleId, texts, n);
      forall k :: 0 <= k < n && LongResponse(texts[k]) ==> ResponseAt(articleId, k + 1, texts[k]) in r
    ensures var r := ResponsesOf(articleId, texts, n);
      forall j, k :: 0 <= j < k < |r| ==> r[j].responseId != r[k].responseId
  {
    var build := (p: nat, t: string) => ResponseAt(articleId, p, t);
    KeptMapAtPositions(texts, LongResponse, build, n);
    KeptMapComplete(texts, LongResponse, build, n);
    KeptMapIdsDistinct(texts, LongResponse, build, n, (r: AuthorResponse) => r.responseId, articleId, "response");
  }

  /** `_extract_author_responses`. */
  method ExtractAuthorResponses(articleId: string, texts: seq<string>) returns (responses: seq<AuthorResponse>)
    ensures responses == ResponsesOf(articleId, texts, |texts|)
  {
    responses := [];
    var i := 0;
    while i < |texts|
      invariant 0 <= i <= |texts|
      invariant responses == ResponsesOf(articleId, texts, i)
    {
      if |texts[i]| > 100 {
        responses := responses + [ResponseAt(articleId, i + 1, texts[i])];
      }
      i := i + 1;
    }
  }

  // ------------------------------------------------------------- manuscript

  /** What `collect_single_manuscript` reads from an article page. */
  datatype Page = Page(
    title: Option<string>,
    abstractText: Option<string>,
    authorTags: seq<string>,
    doi: Option<string>,
    sections: seq<Section>,
    assessment: Option<string>,
    responses: seq<string>,
    publicationDate: Option<string>)

  /**
   * `collect_single_manuscript`: `None` when the page could not be
   * fetched; otherwise the manuscript, at its reviewed-preprint address
   * or, when that is missing, its article address. eLife makes no
   * accept/reject decision.
   */
  method CollectSingleManuscript(articleId: string, isPreprint: bool, page: Option<Page>, collectionDate: string)
    returns (m: Option<Manuscript>)
    ensures m.None? <==> page.None?
    ensures m.Some? ==>
      var p := page.value;
      && m.value.manuscriptId == articleId && m.value.source == Elife
      && m.value.sourceUrl == BaseUrl + (if isPreprint then "/reviewed-preprints/" else "/articles/") + articleId
      && m.value.title == TitleOr(p.title, articleId)
      && m.value.authors == Authors(p.authorTags)
      && m.value.reviews == ReviewsOf(articleId, p.sections, |p.sections|)
      && m.value.numReviews == |m.value.reviews|
      && m.value.editorialAssessments == Assessments(articleId, p.assessment)
      && m.value.authorResponses == ResponsesOf(articleId, p.responses, |p.responses|)
      && m.value.decision == NoDecision
      && m.value.abstractText == p.abstractText && m.value.doi == p.doi
      && m.value.publicationDate == p.publicationDate && m.value.keywords == []
      && m.value.collectionDate == collectionDate
      && m.value.rawData == HtmlCollected
  {
    if page.None? {
      return None;
    }
    var articleUrl := BaseUrl + "/reviewed-preprints/" + articleId;
    if !isPreprint {
      articleUrl := BaseUrl + "/articles/" + articleId;
    }
    var p := page.value;
    var authors := ExtractAuthors(p.authorTags);
    var reviews := ExtractReviews(articleId, p.sections);
    var responses := ExtractAuthorResponses(articleId, p.responses);
    m := Some(NewManuscript(
      articleId, Elife, articleUrl, TitleOr(p.title, articleId), p.abstractText, authors, [], p.doi,
      reviews, responses, Assessments(articleId, p.assessment), p.publicationDate, NoDecision, collectionDate));
  }
}
