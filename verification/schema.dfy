/**
 * The unified record schema shared by the collectors: reviewers, reviews,
 * manuscripts and collection metadata, the defaults their constructors fill
 * in, the per-manuscript checks (`validate`, `has_disagreement`,
 * `get_review_summary`) and the conversion to plain dictionaries.
 */
module Schema {
  import opened Wrappers
  import opened Text
  import opened PyData

  // ---------------------------------------------------------------- enums

  datatype ReviewSource = Elife | F1000Research | Biorxiv | OtherSource

  /** `ReviewSource.value`. */
  function SourceValue(s: ReviewSource): string {
    match s
    case Elife => "elife"
    case F1000Research => "f1000research"
    case Biorxiv => "biorxiv"
    case OtherSource => "other"
  }

  /** `ReviewSource(v)`: the member whose value is `v`, if any. */
  function SourceFromValue(v: string): (r: Option<ReviewSource>)
    ensures r.Some? ==> SourceValue(r.value) == v
    ensures r.None? ==> forall s: ReviewSource :: SourceValue(s) != v
  {
    if v == "elife" then Some(Elife)
    else if v == "f1000research" then Some(F1000Research)
    else if v == "biorxiv" then Some(Biorxiv)
    else if v == "other" then Some(OtherSource)
    else None
  }

  datatype ReviewDecision = Accept | Reject | Revise | Pending | NoDecision

  /** `ReviewDecision.value`. */
  function DecisionValue(d: ReviewDecision): string {
    match d
    case Accept => "accept"
    case Reject => "reject"
    case Revise => "revise"
    case Pending => "pending"
    case NoDecision => "no_decision"
  }

  /** `ReviewDecision(v)`: the member whose value is `v`, if any. */
  function DecisionFromValue(v: string): (r: Option<ReviewDecision>)
    ensures r.Some? ==> DecisionValue(r.value) == v
    ensures r.None? ==> forall d: ReviewDecision :: DecisionValue(d) != v
  {
    if v == "accept" then Some(Accept)
    else if v == "reject" then Some(Reject)
    else if v == "revise" then Some(Revise)
    else if v == "pending" then Some(Pending)
    else if v == "no_decision" then Some(NoDecision)
    else None
  }

  // -------------------------------------------------------------- records

  datatype Reviewer = Reviewer(
    reviewerId: string,
    name: Option<string>,
    affiliation: Option<string>,
    isAnonymous: bool)

  datatype Review = Review(
    reviewId: string,
    reviewer: Reviewer,
    reviewText: string,
    recommendation: Option<string>,
    dateSubmitted: Option<string>,
    versionReviewed: int,
    strengths: Option<seq<string>>,
    weaknesses: Option<seq<string>>,
    majorIssues: Option<seq<string>>,
    minorIssues: Option<seq<string>>,
    confidenceScore: Option<string>,
    wordCount: int)

  datatype AuthorResponse = AuthorResponse(
    responseId: string,
    responseText: string,
    dateSubmitted: Option<string>,
    version: int)

  datatype EditorialAssessment = EditorialAssessment(
    assessmentId: string,
    assessmentText: string,
    significance: Option<string>,
    strengthOfEvidence: Option<string>,
    dateSubmitted: Option<string>)

  datatype Manuscript = Manuscript(
    manuscriptId: string,
    source: ReviewSource,
    sourceUrl: string,
    title: string,
    abstractText: Option<string>,
    authors: seq<string>,
    keywords: seq<string>,
    subjectAreas: seq<string>,
    preprintDate: Option<string>,
    submissionDate: Option<string>,
    publicationDate: Option<string>,
    doi: Option<string>,
    preprintDoi: Option<string>,
    reviews: seq<Review>,
    authorResponses: seq<AuthorResponse>,
    editorialAssessments: seq<EditorialAssessment>,
    decision: ReviewDecision,
    decisionDate: Option<string>,
    numReviews: int,
    reviewRounds: int,
    collectionDate: string,
    rawData: map<string, Value>)

  /** One entry of `CollectionMetadata.errors`: `{'article_id': ..., 'error': ...}`. */
  datatype ErrorEntry = ErrorEntry(articleId: string, error: string)

  datatype CollectionMetadata = CollectionMetadata(
    collectionId: string,
    source: ReviewSource,
    startTime: string,
    endTime: Option<string>,
    numAttempted: int,
    numSuccessful: int,
    numFailed: int,
    errors: seq<ErrorEntry>,
    config: map<string, Value>)

  // --------------------------------------------------------- construction

  /** The arguments of `Review(...)` as the collectors pass them, every other field at its default. */
  function ReviewArgs(reviewId: string, reviewer: Reviewer, text: string, recommendation: Option<string>): Review {
    Review(reviewId, reviewer, text, recommendation, None, 1, None, None, None, None, None, 0)
  }

  /**
   * `Review.__post_init__`: a review whose text is non-empty and whose word
   * count was left at 0 gets the number of whitespace-separated words.
   */
  function PostInitReview(args: Review): (r: Review)
    ensures r == args.(wordCount := r.wordCount)
    ensures args.reviewText == [] || args.wordCount != 0 ==> r.wordCount == args.wordCount
    ensures args.reviewText != [] && args.wordCount == 0 ==> r.wordCount == |Words(args.reviewText)|
    ensures args.reviewText != [] && args.wordCount == 0 ==> (r.wordCount == 0 <==> AllSpace(args.reviewText))
  {
    if args.reviewText != [] && args.wordCount == 0 then args.(wordCount := |Words(args.reviewText)|)
    else args
  }

  /**
   * `Manuscript.__post_init__`: a review count left at 0 becomes the length
   * of the review list; an explicit non-zero count is kept even when it
   * disagrees with the list.
   */
  function PostInitManuscript(args: Manuscript): (m: Manuscript)
    ensures m == args.(numReviews := m.numReviews)
    ensures args.numReviews == 0 ==> m.numReviews == |args.reviews|
    ensures args.numReviews != 0 ==> m.numReviews == args.numReviews
  {
    if args.numReviews == 0 then args.(numReviews := |args.reviews|) else args
  }

  // ------------------------------------------------------- review summary

  function CountAnonymous(rs: seq<Review>): nat {
    if rs == [] then 0 else (if rs[0].reviewer.isAnonymous then 1 else 0) + CountAnonymous(rs[1..])
  }

  function CountNamed(rs: seq<Review>): nat {
    if rs == [] then 0 else (if rs[0].reviewer.isAnonymous then 0 else 1) + CountNamed(rs[1..])
  }

  function TotalWords(rs: seq<Review>): int {
    if rs == [] then 0 else rs[0].wordCount + TotalWords(rs[1..])
  }

  /** Every review is either anonymous or named. */
  lemma {:induction false} AnonymousPlusNamed(rs: seq<Review>)
    ensures CountAnonymous(rs) + CountNamed(rs) == |rs|
  {
    if rs != [] {
      AnonymousPlusNamed(rs[1..]);
    }
  }

  /**
   * The counts are sums over the reviews: one more review adds its word
   * count to the total and one to exactly one of the two counts.
   */
  lemma {:induction false} SummaryCountsAppend(rs: seq<Review>, r: Review)
    ensures CountAnonymous(rs + [r]) == CountAnonymous(rs) + if r.reviewer.isAnonymous then 1 else 0
    ensures CountNamed(rs + [r]) == CountNamed(rs) + if r.reviewer.isAnonymous then 0 else 1
    ensures TotalWords(rs + [r]) == TotalWords(rs) + r.wordCount
  {
    if rs != [] {
      assert (rs + [r])[1..] == rs[1..] + [r];
      SummaryCountsAppend(rs[1..], r);
    }
  }

  datatype ReviewSummary = ReviewSummary(
    totalReviews: nat,
    anonymousReviews: nat,
    namedReviews: nat,
    totalWords: int,
    avgWordsPerReview: real,
    hasAuthorResponse: bool,
    hasEditorialAssessment: bool)

  /** `Manuscript.get_review_summary`. */
  function GetReviewSummary(m: Manuscript): (s: ReviewSummary)
    ensures s.totalReviews == |m.reviews|
    ensures s.anonymousReviews + s.namedReviews == s.totalReviews
    ensures s.anonymousReviews == CountAnonymous(m.reviews)
    ensures s.totalWords == TotalWords(m.reviews)
    ensures m.reviews == [] ==> s.avgWordsPerReview == 0.0
    ensures m.reviews != [] ==> s.avgWordsPerReview * (|m.reviews| as real) == s.totalWords as real
    ensures s.hasAuthorResponse <==> m.authorResponses != []
    ensures s.hasEditorialAssessment <==> m.editorialAssessments != []
  {
    AnonymousPlusNamed(m.reviews);
    var total := TotalWords(m.reviews);
    ReviewSummary(
      |m.reviews|,
      CountAnonymous(m.reviews),
      CountNamed(m.reviews),
      total,
      if m.reviews != [] then (total as real) / (|m.reviews| as real) else 0.0,
      |m.authorResponses| > 0,
      |m.editorialAssessments| > 0)
  }

  // ------------------------------------------------------- disagreement

  /** `if r.recommendation`: present and non-empty. */
  predicate Labelled(r: Review) {
    r.recommendation.Some? && r.recommendation.value != ""
  }

  /** `set(recommendations)` for the labelled reviews. */
  function RecommendationSet(rs: seq<Review>): set<string> {
    set i | 0 <= i < |rs| && Labelled(rs[i]) :: rs[i].recommendation.value
  }

  /** `Manuscript.has_disagreement`: more than one distinct label. */
  predicate HasDisagreement(m: Manuscript) {
    |RecommendationSet(m.reviews)| > 1
  }

  /** Two reviews that carry different non-empty labels. */
  predicate DisagreeingPair(rs: seq<Review>, i: int, j: int) {
    && 0 <= i < |rs| && 0 <= j < |rs|
    && Labelled(rs[i]) && Labelled(rs[j])
    && rs[i].recommendation.value != rs[j].recommendation.value
  }

  /** A manuscript disagrees exactly when two of its labelled reviews differ. */
  lemma HasDisagreementIff(m: Manuscript)
    ensures HasDisagreement(m) <==> exists i, j :: DisagreeingPair(m.reviews, i, j)
  {
    var rs := m.reviews;
    var s := RecommendationSet(rs);
    if |s| > 1 {
      var x :| x in s;
      assert |s - {x}| == |s| - 1;
      var y :| y in s - {x};
      var i :| 0 <= i < |rs| && Labelled(rs[i]) && rs[i].recommendation.value == x;
      var j :| 0 <= j < |rs| && Labelled(rs[j]) && rs[j].recommendation.value == y;
      assert DisagreeingPair(rs, i, j);
    }
    if exists i, j :: DisagreeingPair(rs, i, j) {
      var i, j :| DisagreeingPair(rs, i, j);
      var x, y := rs[i].recommendation.value, rs[j].recommendation.value;
      assert x in s;
      assert y in s - {x};
      assert |s - {x}| == |s| - 1;
    }
  }

  /** With at most one labelled review there is nothing to disagree with. */
  lemma NoDisagreementWithOneLabel(m: Manuscript, k: int)
    requires forall i :: 0 <= i < |m.reviews| && i != k ==> !Labelled(m.reviews[i])
    ensures !HasDisagreement(m)
  {
    HasDisagreementIff(m);
  }

  // ----------------------------------------------------------- validation

  /** The condition under which `validate` reports a review. */
  predicate InsufficientText(r: Review) {
    r.reviewText == [] || |Strip(r.reviewText)| < 50
  }

  function ReviewIssue(position: nat): string {
    "Review " + DecimalString(position) + " has insufficient text (< 50 chars)"
  }

  /** The issues of the header fields, in the order `validate` checks them. */
  function HeaderIssues(m: Manuscript): seq<string> {
    (if m.manuscriptId == "" then ["Missing manuscript_id"] else [])
    + (if m.title == "" then ["Missing title"] else [])
    + (if m.sourceUrl == "" then ["Missing source_url"] else [])
    + (if |m.reviews| == 0 then ["No reviews found"] else [])
  }

  /**
   * One issue per review among the first `n` whose text is insufficient,
   * numbered by its 1-based position.
   */
  function ReviewIssues(rs: seq<Review>, n: nat): seq<string>
    requires n <= |rs|
  {
    if n == 0 then []
    else ReviewIssues(rs, n - 1) + (if InsufficientText(rs[n - 1]) then [ReviewIssue(n)] else [])
  }

  function ValidationIssues(m: Manuscript): seq<string> {
    HeaderIssues(m) + ReviewIssues(m.reviews, |m.reviews|)
  }

  /** `Manuscript.validate`. */
  method Validate(m: Manuscript) returns (issues: seq<string>)
    ensures issues == ValidationIssues(m)
  {
    issues := [];
    if m.manuscriptId == "" {
      issues := issues + ["Missing manuscript_id"];
    }
    if m.title == "" {
      issues := issues + ["Missing title"];
    }
    if m.sourceUrl == "" {
      issues := issues + ["Missing source_url"];
    }
    if |m.reviews| == 0 {
      issues := issues + ["No reviews found"];
    }
    assert issues == HeaderIssues(m);
    issues := AppendReviewIssues(m.reviews, issues);
  }

  /** The loop of `validate` over the reviews, appending to the issues found so far. */
  method AppendReviewIssues(rs: seq<Review>, found: seq<string>) returns (issues: seq<string>)
    ensures issues == found + ReviewIssues(rs, |rs|)
  {
    issues := found;
    var i := 0;
    while i < |rs|
      invariant 0 <= i <= |rs|
      invariant issues == found + ReviewIssues(rs, i)
    {
      if InsufficientText(rs[i]) {
        issues := issues + [ReviewIssue(i + 1)];
      }
      i := i + 1;
    }
  }

  /** Every header field present, at least one review, and every review long enough. */
  predicate IsComplete(m: Manuscript) {
    && m.manuscriptId != "" && m.title != "" && m.sourceUrl != ""
    && |m.reviews| > 0
    && forall i :: 0 <= i < |m.reviews| ==> |Strip(m.reviews[i].reviewText)| >= 50
  }

  function CountInsufficient(rs: seq<Review>, n: nat): nat
    requires n <= |rs|
  {
    if n == 0 then 0 else CountInsufficient(rs, n - 1) + (if InsufficientText(rs[n - 1]) then 1 else 0)
  }

  function MissingHeaderFields(m: Manuscript): nat {
    (if m.manuscriptId == "" then 1 else 0) + (if m.title == "" then 1 else 0) + (if m.sourceUrl == "" then 1 else 0)
  }

  lemma {:induction false} ReviewIssuesCount(rs: seq<Review>, n: nat)
    requires n <= |rs|
    ensures |ReviewIssues(rs, n)| == CountInsufficient(rs, n)
  {
    if n != 0 {
      ReviewIssuesCount(rs, n - 1);
    }
  }

  lemma {:induction false} ReviewIssuesEmpty(rs: seq<Review>, n: nat)
    requires n <= |rs|
    ensures ReviewIssues(rs, n) == [] <==> forall i :: 0 <= i < n ==> !InsufficientText(rs[i])
  {
    if n != 0 {
      ReviewIssuesEmpty(rs, n - 1);
      var prev := ReviewIssues(rs, n - 1);
      assert |ReviewIssues(rs, n)| == |prev| + (if InsufficientText(rs[n - 1]) then 1 else 0);
    }
  }

  /** `validate` reports nothing exactly for a complete manuscript. */
  lemma ValidateEmptyIff(m: Manuscript)
    ensures ValidationIssues(m) == [] <==> IsComplete(m)
  {
    ReviewIssuesEmpty(m.reviews, |m.reviews|);
    assert forall i :: 0 <= i < |m.reviews| ==>
      (InsufficientText(m.reviews[i]) <==> |Strip(m.reviews[i].reviewText)| < 50);
  }

  /** One issue per missing header field, one for no reviews, one per short review. */
  lemma ValidationIssueCount(m: Manuscript)
    ensures |ValidationIssues(m)| ==
      MissingHeaderFields(m) + (if |m.reviews| == 0 then 1 else 0) + CountInsufficient(m.reviews, |m.reviews|)
  {
    ReviewIssuesCount(m.reviews, |m.reviews|);
  }

  lemma ReviewIssueInjective(p: nat, q: nat)
    requires ReviewIssue(p) == ReviewIssue(q)
    ensures p == q
  {
    var suffix := " has insufficient text (< 50 chars)";
    var a, b := DecimalString(p), DecimalString(q);
    assert ReviewIssue(p) == "Review " + a + suffix;
    assert |a| == |b|;
    assert a == ReviewIssue(p)[7..7 + |a|];
    assert b == ReviewIssue(q)[7..7 + |b|];
    DecimalStringInjective(p, q);
  }

  lemma {:induction false} ReviewIssueMembership(rs: seq<Review>, n: nat, p: nat)
    requires n <= |rs|
    ensures ReviewIssue(p) in ReviewIssues(rs, n) <==> 1 <= p <= n && InsufficientText(rs[p - 1])
  {
    if n != 0 {
      ReviewIssueMembership(rs, n - 1, p);
      if p == n {
        assert ReviewIssue(p) !in ReviewIssues(rs, n - 1);
      } else if ReviewIssue(p) == ReviewIssue(n) {
        ReviewIssueInjective(p, n);
      }
    }
  }

  /** The issue naming review `p` (1-based) is reported exactly when that review is too short. */
  lemma ReviewIssueNamesPosition(m: Manuscript, p: nat)
    requires 1 <= p <= |m.reviews|
    ensures ReviewIssue(p) in ValidationIssues(m) <==> InsufficientText(m.reviews[p - 1])
  {
    ReviewIssueMembership(m.reviews, |m.reviews|, p);
    var h := HeaderIssues(m);
    forall k | 0 <= k < |h| ensures h[k] != ReviewIssue(p) {
      assert |ReviewIssue(p)| > 7 && ReviewIssue(p)[..7] == "Review ";
    }
  }

  // -------------------------------------------------------------- to_dict

  function ReviewerAsDict(r: Reviewer): (v: Value)
    ensures IsJson(v)
  {
    Dict(map[
      "reviewer_id" := Str(r.reviewerId),
      "name" := OptStr(r.name),
      "affiliation" := OptStr(r.affiliation),
      "is_anonymous" := Bool(r.isAnonymous)])
  }

  function ReviewAsDict(r: Review): (v: Value)
    ensures IsJson(v)
  {
    Dict(map[
      "review_id" := Str(r.reviewId),
      "reviewer" := ReviewerAsDict(r.reviewer),
      "review_text" := Str(r.reviewText),
      "recommendation" := OptStr(r.recommendation),
      "date_submitted" := OptStr(r.dateSubmitted),
      "version_reviewed" := IntValue(r.versionReviewed),
      "strengths" := OptStrList(r.strengths),
      "weaknesses" := OptStrList(r.weaknesses),
      "major_issues" := OptStrList(r.majorIssues),
      "minor_issues" := OptStrList(r.minorIssues),
      "confidence_score" := OptStr(r.confidenceScore),
      "word_count" := IntValue(r.wordCount)])
  }

  function AuthorResponseAsDict(a: AuthorResponse): (v: Value)
    ensures IsJson(v)
  {
    Dict(map[
      "response_id" := Str(a.responseId),
      "response_text" := Str(a.responseText),
      "date_submitted" := OptStr(a.dateSubmitted),
      "version" := IntValue(a.version)])
  }

  function AssessmentAsDict(e: EditorialAssessment): (v: Value)
    ensures IsJson(v)
  {
    Dict(map[
      "assessment_id" := Str(e.assessmentId),
      "assessment_text" := Str(e.assessmentText),
      "significance" := OptStr(e.significance),
      "strength_of_evidence" := OptStr(e.strengthOfEvidence),
      "date_submitted" := OptStr(e.dateSubmitted)])
  }

  function ReviewList(rs: seq<Review>): (v: Value)
    ensures IsJson(v) && v.List? && |v.items| == |rs|
    ensures forall i :: 0 <= i < |rs| ==> v.items[i] == ReviewAsDict(rs[i])
  {
    List(seq(|rs|, i requires 0 <= i < |rs| => ReviewAsDict(rs[i])))
  }

  function ResponseList(xs: seq<AuthorResponse>): (v: Value)
    ensures IsJson(v)
  {
    List(seq(|xs|, i requires 0 <= i < |xs| => AuthorResponseAsDict(xs[i])))
  }

  function AssessmentList(xs: seq<EditorialAssessment>): (v: Value)
    ensures IsJson(v)
  {
    List(seq(|xs|, i requires 0 <= i < |xs| => AssessmentAsDict(xs[i])))
  }

  function SourceMember(s: ReviewSource): Value {
    Member("ReviewSource", SourceValue(s))
  }

  function DecisionMember(d: ReviewDecision): Value {
    Member("ReviewDecision", DecisionValue(d))
  }

  /** The entries of `dataclasses.asdict(manuscript)` other than the two enum fields. */
  function PlainFields(m: Manuscript): map<string, Value> {
    map[
      "manuscript_id" := Str(m.manuscriptId),
      "source_url" := Str(m.sourceUrl),
      "title" := Str(m.title),
      "abstract" := OptStr(m.abstractText),
      "authors" := StrList(m.authors),
      "keywords" := StrList(m.keywords),
      "subject_areas" := StrList(m.subjectAreas),
      "preprint_date" := OptStr(m.preprintDate),
      "submission_date" := OptStr(m.submissionDate),
      "publication_date" := OptStr(m.publicationDate),
      "doi" := OptStr(m.doi),
      "preprint_doi" := OptStr(m.preprintDoi),
      "reviews" := ReviewList(m.reviews),
      "author_responses" := ResponseList(m.authorResponses),
      "editorial_assessments" := AssessmentList(m.editorialAssessments),
      "decision_date" := OptStr(m.decisionDate),
      "num_reviews" := IntValue(m.numReviews),
      "review_rounds" := IntValue(m.reviewRounds),
      "collection_date" := Str(m.collectionDate),
      "raw_data" := Dict(m.rawData)]
  }

  /** `dataclasses.asdict(manuscript)`: nested records become dicts, enum members stay members. */
  function ManuscriptAsDict(m: Manuscript): map<string, Value> {
    PlainFields(m)["source" := SourceMember(m.source)]["decision" := DecisionMember(m.decision)]
  }

  /** Given JSON raw data, every entry other than the enum fields can be written as JSON. */
  lemma PlainFieldsJson(m: Manuscript)
    requires IsJson(Dict(m.rawData))
    ensures forall k :: k in PlainFields(m) ==> IsJson(PlainFields(m)[k])
  {
  }

  /**
   * `Manuscript.to_dict`: `asdict` with `source` and `decision` replaced by
   * their string values.
   */
  function ManuscriptToDict(m: Manuscript): (d: map<string, Value>)
    ensures "source" in d && "decision" in d
    ensures d["source"] == Str(SourceValue(m.source)) && d["decision"] == Str(DecisionValue(m.decision))
  {
    PlainFields(m)["source" := Str(SourceValue(m.source))]["decision" := Str(DecisionValue(m.decision))]
  }

  /** Given JSON raw data, `to_dict` gives a dictionary that can be written as JSON. */
  lemma ToDictIsJson(m: Manuscript)
    requires IsJson(Dict(m.rawData))
    ensures IsJson(Dict(ManuscriptToDict(m)))
  {
    PlainFieldsJson(m);
  }

  /** `to_dict` writes exactly the fields `asdict` writes. */
  lemma ToDictSameKeys(m: Manuscript)
    ensures ManuscriptToDict(m).Keys == ManuscriptAsDict(m).Keys
  {
    var a := ManuscriptAsDict(m);
    assert "source" in a && "decision" in a;
  }

  /** Every field other than the two enums is written as `asdict` gives it. */
  lemma ToDictKeepsOtherFields(m: Manuscript, k: string)
    requires k in ManuscriptAsDict(m) && k != "source" && k != "decision"
    ensures ManuscriptToDict(m)[k] == ManuscriptAsDict(m)[k]
  {
  }

  /** `asdict` alone cannot be written as JSON: the enum members are still there. */
  lemma AsDictIsNotJson(m: Manuscript)
    ensures !IsJson(Dict(ManuscriptAsDict(m)))
  {
    assert "source" in ManuscriptAsDict(m);
  }

  /** The string values written by `to_dict` give the enum members back. */
  lemma ToDictEnumsRoundTrip(m: Manuscript)
    ensures SourceFromValue(ManuscriptToDict(m)["source"].s) == Some(m.source)
    ensures DecisionFromValue(ManuscriptToDict(m)["decision"].s) == Some(m.decision)
  {
  }

  function ErrorAsDict(e: ErrorEntry): (v: Value)
    ensures IsJson(v)
  {
    Dict(map["article_id" := Str(e.articleId), "error" := Str(e.error)])
  }

  /** `dataclasses.asdict(metadata)`. */
  function MetadataAsDict(c: CollectionMetadata): map<string, Value> {
    map[
      "collection_id" := Str(c.collectionId),
      "source" := SourceMember(c.source),
      "start_time" := Str(c.startTime),
      "end_time" := OptStr(c.endTime),
      "num_manuscripts_attempted" := IntValue(c.numAttempted),
      "num_manuscripts_successful" := IntValue(c.numSuccessful),
      "num_manuscripts_failed" := IntValue(c.numFailed),
      "errors" := List(seq(|c.errors|, i requires 0 <= i < |c.errors| => ErrorAsDict(c.errors[i]))),
      "config" := Dict(c.config)]
  }

  /** `CollectionMetadata.to_dict`: `asdict` with only `source` replaced by its string value. */
  function MetadataToDict(c: CollectionMetadata): (d: map<string, Value>)
    ensures d.Keys == MetadataAsDict(c).Keys
    ensures forall k :: k in d && k != "source" ==> d[k] == MetadataAsDict(c)[k]
    ensures d["source"] == Str(SourceValue(c.source))
    ensures IsJson(Dict(c.config)) ==> IsJson(Dict(d))
  {
    MetadataAsDict(c)["source" := Str(SourceValue(c.source))]
  }
}
