/**
 * The input preparation for the review-analysis pipeline: the manuscripts
 * read back from the collection output are flattened into one record per
 * review carrying its manuscript's context, with summary statistics, and a
 * second file holds one context record per manuscript.
 *
 * The loaded file is an arbitrary JSON value, so every subscript, `.get`,
 * slice and `len` can raise; the model returns the first exception raised.
 */
module PrepareInput {
  import opened Wrappers
  import opened PyData

  // ------------------------------------------------------------ iteration

  /**
   * The items a `for` loop over `v` reaches before the loop body's first
   * subscript by a string. A list yields its items; an empty `str` or
   * `dict` yields nothing; a non-empty one yields characters or keys,
   * which the body's first `x['...']` rejects with a TypeError; other
   * values cannot be iterated at all.
   */
  function Elements(v: Value): (r: Outcome<seq<Value>>)
    ensures r.Success? <==> v.List? || v == Str("") || v == Dict(map[])
    ensures r.Success? && v.List? ==> r.value == v.items
    ensures r.Success? && !v.List? ==> r.value == []
    ensures r.Failure? ==> r.error == TypeError
  {
    match v
    case List(xs) => Success(xs)
    case Str(s) => if s == [] then Success([]) else Failure(TypeError)
    case Dict(m) => if m == map[] then Success([]) else Failure(TypeError)
    case _ => Failure(TypeError)
  }

  // -------------------------------------------------------- review records

  /** What the outer loop reads from one manuscript before its inner loop. */
  datatype ManuscriptContext = ManuscriptContext(
    manuscriptId: Value,
    title: Value,
    abstractValue: Value,
    doi: Value,
    reviews: seq<Value>)

  /** One element of `review_records`, field by field in the order they are built. */
  datatype ReviewRecord = ReviewRecord(
    manuscriptId: Value,
    manuscriptTitle: Value,
    manuscriptAbstract: Value,
    manuscriptDoi: Value,
    reviewId: Value,
    reviewerId: Value,
    reviewerName: Value,
    reviewerAffiliation: Value,
    isAnonymous: Value,
    reviewText: Value,
    wordCount: Value,
    recommendation: Value,
    version: Value)

  /**
   * The statements before the inner loop: the four context lookups, the
   * title slice and the `len` of the reviews that the progress lines
   * print, and the iteration of the reviews.
   */
  function Context(m: Value): Outcome<ManuscriptContext> {
    var id :- Index(m, "manuscript_id");
    var title :- Index(m, "title");
    // `m` is a dict from here on, so `.get` cannot raise
    var abstractValue := Lookup(m.fields, "abstract", Str(""));
    var doi := Lookup(m.fields, "doi", Str(""));
    var shown :- SliceTo(title, 80);
    var reviewsValue :- Index(m, "reviews");
    var count :- Len(reviewsValue);
    var reviews :- Elements(reviewsValue);
    Success(ManuscriptContext(id, title, abstractValue, doi, reviews))
  }

  /**
   * The context exists exactly for a dict with an id, a sliceable title and
   * an iterable list of reviews; it holds the values looked up, with the
   * `.get` defaults; a missing id is the first error.
   */
  lemma ContextMeaning(m: Value)
    ensures var r := Context(m);
      r.Success? <==>
      && m.Dict? && "manuscript_id" in m.fields && "title" in m.fields && "reviews" in m.fields
      && (m.fields["title"].Str? || m.fields["title"].List?)
      && Elements(m.fields["reviews"]).Success?
    ensures var r := Context(m);
      r.Success? ==>
      && r.value.manuscriptId == m.fields["manuscript_id"]
      && r.value.title == m.fields["title"]
      && r.value.abstractValue == Lookup(m.fields, "abstract", Str(""))
      && r.value.doi == Lookup(m.fields, "doi", Str(""))
      && r.value.reviews == Elements(m.fields["reviews"]).value
    ensures m.Dict? && "manuscript_id" !in m.fields ==> Context(m) == Failure(KeyError("manuscript_id"))
  {
  }

  /** The keys a review dict must hold for its record to be built. */
  predicate WellFormedReview(review: Value) {
    && review.Dict?
    && "review_id" in review.fields && "reviewer" in review.fields
    && "review_text" in review.fields && "word_count" in review.fields
    && review.fields["reviewer"].Dict?
    && "reviewer_id" in review.fields["reviewer"].fields
    && "is_anonymous" in review.fields["reviewer"].fields
  }

  /**
   * The dict display for one review: manuscript fields from the context,
   * review fields from the review, `None` for an absent name, affiliation
   * or recommendation, and version 1 only when `version_reviewed` is absent.
   */
  function BuildRecord(c: ManuscriptContext, review: Value): (r: Outcome<ReviewRecord>)
    ensures r.Success? <==> WellFormedReview(review)
    ensures r.Success? ==>
      var f := review.fields;
      var who := f["reviewer"].fields;
      && r.value.manuscriptId == c.manuscriptId && r.value.manuscriptTitle == c.title
      && r.value.manuscriptAbstract == c.abstractValue && r.value.manuscriptDoi == c.doi
      && r.value.reviewId == f["review_id"] && r.value.reviewerId == who["reviewer_id"]
      && r.value.reviewerName == Lookup(who, "name", Null)
      && r.value.reviewerAffiliation == Lookup(who, "affiliation", Null)
      && r.value.isAnonymous == who["is_anonymous"]
      && r.value.reviewText == f["review_text"] && r.value.wordCount == f["word_count"]
      && r.value.recommendation == Lookup(f, "recommendation", Null)
      && r.value.version == Lookup(f, "version_reviewed", Num(1.0))
    ensures !review.Dict? ==> r == Failure(TypeError)
  {
    var reviewId :- Index(review, "review_id");
    var reviewer :- Index(review, "reviewer");
    var reviewerId :- Index(reviewer, "reviewer_id");
    // both are dicts from here on, so `.get` cannot raise
    var name := Lookup(reviewer.fields, "name", Null);
    var affiliation := Lookup(reviewer.fields, "affiliation", Null);
    var anonymous :- Index(reviewer, "is_anonymous");
    var text :- Index(review, "review_text");
    var words :- Index(review, "word_count");
    var recommendation := Lookup(review.fields, "recommendation", Null);
    var version := Lookup(review.fields, "version_reviewed", IntValue(1));
    Success(ReviewRecord(
      c.manuscriptId, c.title, c.abstractValue, c.doi,
      reviewId, reviewerId, name, affiliation, anonymous,
      text, words, recommendation, version))
  }

  /** The records of the first `n` reviews of one manuscript, or the first exception. */
  function RecordsOf(c: ManuscriptContext, n: nat): Outcome<seq<ReviewRecord>>
    requires n <= |c.reviews|
  {
    if n == 0 then Success([])
    else
      var before :- RecordsOf(c, n - 1);
      var record :- BuildRecord(c, c.reviews[n - 1]);
      Success(before + [record])
  }

  /** All records of one manuscript. */
  function ManuscriptRecords(m: Value): Outcome<seq<ReviewRecord>> {
    var c :- Context(m);
    RecordsOf(c, |c.reviews|)
  }

  /** The parts of the first `n` items joined in order, or the first exception. */
  function Concat<T>(ms: seq<Value>, part: Value -> Outcome<seq<T>>, n: nat): Outcome<seq<T>>
    requires n <= |ms|
  {
    if n == 0 then Success([])
    else
      var before :- Concat(ms, part, n - 1);
      var records :- part(ms[n - 1]);
      Success(before + records)
  }

  /** `review_records` after the first `n` manuscripts, or the first exception. */
  function Flatten(ms: seq<Value>, n: nat): Outcome<seq<ReviewRecord>>
    requires n <= |ms|
  {
    Concat(ms, ManuscriptRecords, n)
  }

  // ----------------------------------------------------------- statistics

  datatype Stats = Stats(
    manuscriptsCount: nat,
    totalReviews: nat,
    avgReviews: real,
    minWordCount: Value,
    maxWordCount: Value)

  /** The keys of `set(r['manuscript_id'] for r in records[:n])`. */
  function IdKeys(records: seq<ReviewRecord>, n: nat): Outcome<set<Value>>
    requires n <= |records|
  {
    if n == 0 then Success({})
    else
      var keys :- IdKeys(records, n - 1);
      var key :- HashKey(records[n - 1].manuscriptId);
      Success(keys + {key})
  }

  /** Python's `a < b` for the values `min` and `max` compare. */
  function Less(a: Value, b: Value): (r: Outcome<bool>)
    ensures r.Success? <==> ((a.Num? || a.Bool?) && (b.Num? || b.Bool?)) || (a.Str? && b.Str?)
  {
    if (a.Num? || a.Bool?) && (b.Num? || b.Bool?) then Success(AsNumber(a).value < AsNumber(b).value)
    else if a.Str? && b.Str? then Success(StrLess(a.s, b.s))
    else Failure(TypeError)
  }

  /** Lexicographic order of strings by code point. */
  predicate StrLess(a: string, b: string) {
    if a == [] then b != []
    else if b == [] then false
    else if a[0] != b[0] then a[0] < b[0]
    else StrLess(a[1..], b[1..])
  }

  /** `min(xs[:n])`: the first element no later element is smaller than. */
  function MinOf(xs: seq<Value>, n: nat): Outcome<Value>
    requires 1 <= n <= |xs|
  {
    if n == 1 then Success(xs[0])
    else
      var best :- MinOf(xs, n - 1);
      var smaller :- Less(xs[n - 1], best);
      Success(if smaller then xs[n - 1] else best)
  }

  /** `max(xs[:n])`: the first element no later element is larger than. */
  function MaxOf(xs: seq<Value>, n: nat): Outcome<Value>
    requires 1 <= n <= |xs|
  {
    if n == 1 then Success(xs[0])
    else
      var best :- MaxOf(xs, n - 1);
      var larger :- Less(best, xs[n - 1]);
      Success(if larger then xs[n - 1] else best)
  }

  function WordCounts(records: seq<ReviewRecord>): (ws: seq<Value>)
    ensures |ws| == |records| && forall k :: 0 <= k < |records| ==> ws[k] == records[k].wordCount
  {
    seq(|records|, k requires 0 <= k < |records| => records[k].wordCount)
  }

  /**
   * The statistics printed after the output file is written: distinct
   * manuscript ids, the average number of reviews per manuscript (a
   * division by that count) and the word-count range.
   */
  function Statistics(records: seq<ReviewRecord>): Outcome<Stats> {
    var keys :- IdKeys(records, |records|);
    if |keys| == 0 then Failure(ZeroDivisionError)
    else
      var counts := WordCounts(records);
      var lo :- MinOf(counts, |counts|);
      var hi :- MaxOf(counts, |counts|);
      Success(Stats(|keys|, |records|, ReviewsPerManuscript(|records|, |keys|), lo, hi))
  }

  /** `total_reviews / manuscripts_count`. */
  function ReviewsPerManuscript(reviews: nat, manuscripts: nat): (r: real)
    requires manuscripts > 0
    ensures r * (manuscripts as real) == reviews as real
    ensures manuscripts <= reviews ==> r >= 1.0
  {
    (reviews as real) / (manuscripts as real)
  }

  // ------------------------------------------------------- the whole step

  /**
   * How `prepare_reviews_for_pipeline` ends: an exception before the
   * output file is written, an exception from the statistics after the
   * records were written, or the records and their statistics.
   */
  datatype PrepareOutcome =
    | Raised(error: PyError)
    | RaisedAfterWrite(written: seq<ReviewRecord>, error: PyError)
    | Prepared(records: seq<ReviewRecord>, stats: Stats)

  function Prepare(manuscripts: Value): PrepareOutcome {
    match Elements(manuscripts)
    case Failure(e) => Raised(e)
    case Success(ms) =>
      match Flatten(ms, |ms|)
      case Failure(e) => Raised(e)
      case Success(records) =>
        match Statistics(records)
        case Failure(e) => RaisedAfterWrite(records, e)
        case Success(stats) => Prepared(records, stats)
  }

  lemma {:induction false} RecordsOfFailureSticks(c: ManuscriptContext, k: nat, n: nat)
    requires k <= n <= |c.reviews| && RecordsOf(c, k).Failure?
    ensures RecordsOf(c, n) == Failure(RecordsOf(c, k).error)
    decreases n - k
  {
    if k < n {
      RecordsOfFailureSticks(c, k, n - 1);
    }
  }

  lemma FlattenFailureSticks(ms: seq<Value>, k: nat, n: nat)
    requires k <= n <= |ms| && Flatten(ms, k).Failure?
    ensures Flatten(ms, n) == Failure(Flatten(ms, k).error)
  {
    ConcatFailureSticks(ms, ManuscriptRecords, k, n);
  }

  /** Once a part raises, joining more parts raises the same exception. */
  lemma {:induction false} ConcatFailureSticks<T>(ms: seq<Value>, part: Value -> Outcome<seq<T>>, k: nat, n: nat)
    requires k <= n <= |ms| && Concat(ms, part, k).Failure?
    ensures Concat(ms, part, n) == Failure(Concat(ms, part, k).error)
    decreases n - k
  {
    if k < n {
      ConcatFailureSticks(ms, part, k, n - 1);
    }
  }

  lemma RecordsOfStep(c: ManuscriptContext, j: nat)
    requires j < |c.reviews| && RecordsOf(c, j).Success? && BuildRecord(c, c.reviews[j]).Success?
    ensures RecordsOf(c, j + 1) == Success(RecordsOf(c, j).value + [BuildRecord(c, c.reviews[j]).value])
  {
  }

  lemma FlattenStep(ms: seq<Value>, i: nat)
    requires i < |ms| && Flatten(ms, i).Success? && Context(ms[i]).Success?
    requires RecordsOf(Context(ms[i]).value, |Context(ms[i]).value.reviews|).Success?
    ensures Flatten(ms, i + 1) ==
      Success(Flatten(ms, i).value + RecordsOf(Context(ms[i]).value, |Context(ms[i]).value.reviews|).value)
  {
  }

  lemma PrepareRaises(manuscripts: Value)
    requires Elements(manuscripts).Success?
    requires Flatten(Elements(manuscripts).value, |Elements(manuscripts).value|).Failure?
    ensures Prepare(manuscripts) == Raised(Flatten(Elements(manuscripts).value, |Elements(manuscripts).value|).error)
  {
  }

  /**
   * The inner loop of `prepare_reviews_for_pipeline`: appends one record
   * per review of a manuscript to `records`, or stops at the first
   * exception.
   */
  method AppendManuscriptRecords(context: ManuscriptContext, records: seq<ReviewRecord>)
    returns (r: Outcome<seq<ReviewRecord>>)
    ensures RecordsOf(context, |context.reviews|).Failure? ==> r == Failure(RecordsOf(context, |context.reviews|).error)
    ensures RecordsOf(context, |context.reviews|).Success? ==> r == Success(records + RecordsOf(context, |context.reviews|).value)
  {
    var reviewRecords := records;
    var j := 0;
    while j < |context.reviews|
      invariant 0 <= j <= |context.reviews|
      invariant RecordsOf(context, j).Success?
      invariant reviewRecords == records + RecordsOf(context, j).value
    {
      var record := BuildRecord(context, context.reviews[j]);
      if record.Failure? {
        RecordsOfFailureSticks(context, j + 1, |context.reviews|);
        return Failure(record.error);
      }
      RecordsOfStep(context, j);
      reviewRecords := reviewRecords + [record.value];
      j := j + 1;
    }
    return Success(reviewRecords);
  }

  /** `prepare_reviews_for_pipeline`, with the manuscripts as loaded from the input file. */
  method PrepareReviewsForPipeline(manuscripts: Value) returns (outcome: PrepareOutcome)
    ensures outcome == Prepare(manuscripts)
  {
    var loaded := Elements(manuscripts);
    if loaded.Failure? {
      return Raised(loaded.error);
    }
    var ms := loaded.value;
    var reviewRecords: seq<ReviewRecord> := [];
    var i := 0;
    while i < |ms|
      invariant 0 <= i <= |ms|
      invariant Flatten(ms, i) == Success(reviewRecords)
    {
      var c := Context(ms[i]);
      if c.Failure? {
        FlattenFailureSticks(ms, i + 1, |ms|);
        PrepareRaises(manuscripts);
        return Raised(c.error);
      }
      var appended := AppendManuscriptRecords(c.value, reviewRecords);
      if appended.Failure? {
        FlattenFailureSticks(ms, i + 1, |ms|);
        PrepareRaises(manuscripts);
        return Raised(appended.error);
      }
      FlattenStep(ms, i);
      reviewRecords := appended.value;
      i := i + 1;
    }
    var stats := Statistics(reviewRecords);
    if stats.Failure? {
      return RaisedAfterWrite(reviewRecords, stats.error);
    }
    return Prepared(reviewRecords, stats.value);
  }

  // ------------------------------------------------ properties of records

  /** How many reviews the outer loop finds in one manuscript (none when it raises). */
  function ReviewCount(m: Value): nat {
    match Context(m)
    case Success(c) => |c.reviews|
    case Failure(_) => 0
  }

  /** The total size of the first `n` items. */
  function Start(ms: seq<Value>, size: Value -> nat, n: nat): nat
    requires n <= |ms|
  {
    if n == 0 then 0 else Start(ms, size, n - 1) + size(ms[n - 1])
  }

  /** The number of reviews in the first `n` manuscripts: where their records start. */
  function Offset(ms: seq<Value>, n: nat): nat
    requires n <= |ms|
  {
    Start(ms, ReviewCount, n)
  }

  lemma {:induction false} RecordsOfShape(c: ManuscriptContext, n: nat)
    requires n <= |c.reviews| && RecordsOf(c, n).Success?
    ensures |RecordsOf(c, n).value| == n
    ensures forall j :: 0 <= j < n ==>
      BuildRecord(c, c.reviews[j]).Success? && RecordsOf(c, n).value[j] == BuildRecord(c, c.reviews[j]).value
  {
    if n != 0 {
      RecordsOfShape(c, n - 1);
    }
  }

  /** All of one manuscript's records: one per review, in review order. */
  lemma ManuscriptRecordsShape(m: Value)
    requires ManuscriptRecords(m).Success?
    ensures |ManuscriptRecords(m).value| == ReviewCount(m)
    ensures forall j :: 0 <= j < ReviewCount(m) ==>
      && BuildRecord(Context(m).value, Context(m).value.reviews[j]).Success?
      && ManuscriptRecords(m).value[j] == BuildRecord(Context(m).value, Context(m).value.reviews[j]).value
  {
    var c := Context(m).value;
    RecordsOfShape(c, |c.reviews|);
  }

  lemma RecordsCount(m: Value)
    requires ManuscriptRecords(m).Success?
    ensures |ManuscriptRecords(m).value| == ReviewCount(m)
  {
    var c := Context(m).value;
    RecordsOfShape(c, |c.reviews|);
  }

  /** A successful join of `n` parts extends the join of the first `n - 1`. */
  lemma ConcatExtends<T>(ms: seq<Value>, part: Value -> Outcome<seq<T>>, n: nat)
    requires 0 < n <= |ms| && Concat(ms, part, n).Success?
    ensures Concat(ms, part, n - 1).Success? && part(ms[n - 1]).Success?
    ensures Concat(ms, part, n).value == Concat(ms, part, n - 1).value + part(ms[n - 1]).value
  {
  }

  /** A join succeeds only if every part does. */
  lemma {:induction false} ConcatParts<T>(ms: seq<Value>, part: Value -> Outcome<seq<T>>, n: nat)
    requires n <= |ms| && Concat(ms, part, n).Success?
    ensures forall i :: 0 <= i < n ==> part(ms[i]).Success?
  {
    if n != 0 {
      ConcatParts(ms, part, n - 1);
    }
  }

  /** A join is as long as the sizes of its parts add up to. */
  lemma {:induction false} ConcatShape<T>(ms: seq<Value>, part: Value -> Outcome<seq<T>>, size: Value -> nat, n: nat)
    requires n <= |ms| && Concat(ms, part, n).Success?
    requires forall k :: 0 <= k < n && part(ms[k]).Success? ==> |part(ms[k]).value| == size(ms[k])
    ensures |Concat(ms, part, n).value| == Start(ms, size, n)
  {
    if n != 0 {
      ConcatShape(ms, part, size, n - 1);
    }
  }

  /** Part `i` of a join sits at the total size of the parts before it. */
  lemma {:induction false} ConcatOrder<T>(ms: seq<Value>, part: Value -> Outcome<seq<T>>, size: Value -> nat, n: nat, i: nat)
    requires i < n <= |ms| && Concat(ms, part, n).Success?
    requires forall k :: 0 <= k < n && part(ms[k]).Success? ==> |part(ms[k]).value| == size(ms[k])
    ensures part(ms[i]).Success?
    ensures Start(ms, size, i) + |part(ms[i]).value| <= |Concat(ms, part, n).value|
    ensures Concat(ms, part, n).value[Start(ms, size, i)..Start(ms, size, i) + |part(ms[i]).value|] == part(ms[i]).value
  {
    ConcatExtends(ms, part, n);
    ConcatShape(ms, part, size, n - 1);
    var before := Concat(ms, part, n - 1).value;
    var last := part(ms[n - 1]).value;
    if i < n - 1 {
      ConcatOrder(ms, part, size, n - 1, i);
      var lo := Start(ms, size, i);
      AppendKeepsSlice(before, last, lo, lo + |part(ms[i]).value|);
    } else {
      AppendKeepsSlice(before, last, 0, 0);
    }
  }

  /** Appending leaves every slice of the front in place, and the appended part follows it. */
  lemma AppendKeepsSlice<T>(front: seq<T>, back: seq<T>, lo: nat, hi: nat)
    requires lo <= hi <= |front|
    ensures (front + back)[lo..hi] == front[lo..hi]
    ensures (front + back)[|front|..|front| + |back|] == back
  {
  }

  /** Every manuscript whose records were built has one record per review. */
  lemma AllRecordsCount(ms: seq<Value>)
    ensures forall k :: 0 <= k < |ms| && ManuscriptRecords(ms[k]).Success? ==> |ManuscriptRecords(ms[k]).value| == ReviewCount(ms[k])
  {
    forall k | 0 <= k < |ms| && ManuscriptRecords(ms[k]).Success?
      ensures |ManuscriptRecords(ms[k]).value| == ReviewCount(ms[k])
    {
      RecordsCount(ms[k]);
    }
  }

  /** One record per review of every manuscript. */
  lemma FlattenShape(ms: seq<Value>, n: nat)
    requires n <= |ms| && Flatten(ms, n).Success?
    ensures |Flatten(ms, n).value| == Offset(ms, n)
  {
    AllRecordsCount(ms);
    ConcatShape(ms, ManuscriptRecords, ReviewCount, n);
  }

  /** The whole flattening succeeds only if every manuscript's part does. */
  lemma FlattenParts(ms: seq<Value>, n: nat)
    requires n <= |ms| && Flatten(ms, n).Success?
    ensures forall i :: 0 <= i < n ==> ManuscriptRecords(ms[i]).Success?
  {
    ConcatParts(ms, ManuscriptRecords, n);
  }

  /**
   * Manuscripts in order, and within each its records in order: the
   * records of manuscript `i` sit at `Offset(ms, i)` onwards.
   */
  lemma FlattenOrder(ms: seq<Value>, n: nat, i: nat)
    requires i < n <= |ms| && Flatten(ms, n).Success?
    ensures ManuscriptRecords(ms[i]).Success?
    ensures Offset(ms, i) + |ManuscriptRecords(ms[i]).value| <= |Flatten(ms, n).value|
    ensures Flatten(ms, n).value[Offset(ms, i)..Offset(ms, i) + |ManuscriptRecords(ms[i]).value|] == ManuscriptRecords(ms[i]).value
  {
    AllRecordsCount(ms);
    ConcatOrder(ms, ManuscriptRecords, ReviewCount, n, i);
  }

  /** Every record carries the context of the manuscript it came from. */
  lemma RecordCarriesContext(ms: seq<Value>, i: nat, j: nat)
    requires i < |ms| && Flatten(ms, |ms|).Success? && j < ReviewCount(ms[i])
    ensures Offset(ms, i) + j < |Flatten(ms, |ms|).value|
    ensures Context(ms[i]).Success? && ms[i].Dict?
    ensures
      var record := Flatten(ms, |ms|).value[Offset(ms, i) + j];
      var m := ms[i].fields;
      var review := Context(ms[i]).value.reviews[j];
      && WellFormedReview(review)
      && record.manuscriptId == m["manuscript_id"] && record.manuscriptTitle == m["title"]
      && record.manuscriptAbstract == Lookup(m, "abstract", Str(""))
      && record.manuscriptDoi == Lookup(m, "doi", Str(""))
      && record.reviewId == review.fields["review_id"]
      && record.reviewText == review.fields["review_text"]
      && record.wordCount == review.fields["word_count"]
  {
    FlattenOrder(ms, |ms|, i);
    ManuscriptRecordsShape(ms[i]);
    var records := ManuscriptRecords(ms[i]).value;
    var all := Flatten(ms, |ms|).value;
    assert all[Offset(ms, i) + j] == all[Offset(ms, i)..Offset(ms, i) + |records|][j];
  }

  // -------------------------------------------- properties of statistics

  lemma {:induction false} IdKeysSize(records: seq<ReviewRecord>, n: nat)
    requires n <= |records| && IdKeys(records, n).Success?
    ensures |IdKeys(records, n).value| <= n
    ensures n > 0 ==> |IdKeys(records, n).value| > 0
  {
    if n != 0 {
      var keys := IdKeys(records, n - 1).value;
      IdKeysSize(records, n - 1);
      var key := HashKey(records[n - 1].manuscriptId).value;
      assert key in keys + {key};
      assert |keys + {key}| <= |keys| + 1 by {
        if key in keys {
          assert keys + {key} == keys;
        }
      }
    }
  }

  /** With no review records the average divides by zero, after the file was written. */
  lemma NoRecordsDivideByZero(manuscripts: Value)
    requires Elements(manuscripts).Success?
    requires Flatten(Elements(manuscripts).value, |Elements(manuscripts).value|) == Success([])
    ensures Prepare(manuscripts) == RaisedAfterWrite([], ZeroDivisionError)
  {
  }

  /** Numbers have a least element, which `min` returns. */
  lemma {:induction false} MinOfNumbers(xs: seq<Value>, n: nat)
    requires 1 <= n <= |xs| && forall k :: 0 <= k < n ==> xs[k].Num?
    ensures MinOf(xs, n).Success?
    ensures exists k :: 0 <= k < n && MinOf(xs, n).value == xs[k]
    ensures forall k :: 0 <= k < n ==> MinOf(xs, n).value.n <= xs[k].n
  {
    if n > 1 {
      MinOfNumbers(xs, n - 1);
      if MinOf(xs, n).value == xs[n - 1] {
        assert 0 <= n - 1 < n;
      }
    }
  }

  /** Numbers have a greatest element, which `max` returns. */
  lemma {:induction false} MaxOfNumbers(xs: seq<Value>, n: nat)
    requires 1 <= n <= |xs| && forall k :: 0 <= k < n ==> xs[k].Num?
    ensures MaxOf(xs, n).Success?
    ensures exists k :: 0 <= k < n && MaxOf(xs, n).value == xs[k]
    ensures forall k :: 0 <= k < n ==> xs[k].n <= MaxOf(xs, n).value.n
  {
    if n > 1 {
      MaxOfNumbers(xs, n - 1);
      if MaxOf(xs, n).value == xs[n - 1] {
        assert 0 <= n - 1 < n;
      }
    }
  }

  /**
   * For records with hashable manuscript ids and numeric word counts the
   * statistics exist: between one and `len(records)` manuscripts, at
   * least one review per manuscript on average, and a word-count range
   * that spans every record.
   */
  lemma StatisticsOfNumbers(records: seq<ReviewRecord>)
    requires records != []
    requires forall k :: 0 <= k < |records| ==> !records[k].manuscriptId.List? && !records[k].manuscriptId.Dict?
    requires forall k :: 0 <= k < |records| ==> records[k].wordCount.Num?
    ensures Statistics(records).Success?
    ensures var s := Statistics(records).value;
      && 1 <= s.manuscriptsCount <= |records| && s.totalReviews == |records|
      && s.avgReviews >= 1.0
      && s.minWordCount.Num? && s.maxWordCount.Num?
      && forall k :: 0 <= k < |records| ==> s.minWordCount.n <= records[k].wordCount.n <= s.maxWordCount.n
  {
    IdKeysHashable(records, |records|);
    IdKeysSize(records, |records|);
    var counts := WordCounts(records);
    MinOfNumbers(counts, |counts|);
    MaxOfNumbers(counts, |counts|);
  }

  lemma {:induction false} IdKeysHashable(records: seq<ReviewRecord>, n: nat)
    requires n <= |records|
    requires forall k :: 0 <= k < n ==> !records[k].manuscriptId.List? && !records[k].manuscriptId.Dict?
    ensures IdKeys(records, n).Success?
  {
    if n != 0 {
      IdKeysHashable(records, n - 1);
    }
  }

  // ---------------------------------------------------- context records

  /** One element of `manuscript_contexts`. */
  datatype ContextRecord = ContextRecord(
    manuscriptId: Value,
    title: Value,
    abstractValue: Value,
    doi: Value,
    authors: Value,
    numReviews: nat,
    source: Value,
    sourceUrl: Value)

  /**
   * The dict display for one manuscript's context: `num_reviews` is the
   * length of the reviews list, whatever the stored `num_reviews` says.
   */
  function ContextOf(m: Value): (r: Outcome<ContextRecord>)
    ensures r.Success? <==>
      && m.Dict? && "manuscript_id" in m.fields && "title" in m.fields && "reviews" in m.fields
      && Len(m.fields["reviews"]).Success? && "source" in m.fields && "source_url" in m.fields
    ensures r.Success? ==>
      && r.value.manuscriptId == m.fields["manuscript_id"] && r.value.title == m.fields["title"]
      && r.value.abstractValue == Lookup(m.fields, "abstract", Str(""))
      && r.value.doi == Lookup(m.fields, "doi", Str(""))
      && r.value.authors == Lookup(m.fields, "authors", List([]))
      && r.value.numReviews == Len(m.fields["reviews"]).value
      && r.value.source == m.fields["source"] && r.value.sourceUrl == m.fields["source_url"]
  {
    var id :- Index(m, "manuscript_id");
    var title :- Index(m, "title");
    // `m` is a dict from here on, so `.get` cannot raise
    var abstractValue := Lookup(m.fields, "abstract", Str(""));
    var doi := Lookup(m.fields, "doi", Str(""));
    var authors := Lookup(m.fields, "authors", List([]));
    var reviews :- Index(m, "reviews");
    var count :- Len(reviews);
    var source :- Index(m, "source");
    var url :- Index(m, "source_url");
    Success(ContextRecord(id, title, abstractValue, doi, authors, count, source, url))
  }

  /** The contexts of the first `n` manuscripts, or the first exception. */
  function Contexts(ms: seq<Value>, n: nat): Outcome<seq<ContextRecord>>
    requires n <= |ms|
  {
    if n == 0 then Success([])
    else
      var before :- Contexts(ms, n - 1);
      var context :- ContextOf(ms[n - 1]);
      Success(before + [context])
  }

  lemma {:induction false} ContextsFailureSticks(ms: seq<Value>, k: nat, n: nat)
    requires k <= n <= |ms| && Contexts(ms, k).Failure?
    ensures Contexts(ms, n) == Failure(Contexts(ms, k).error)
    decreases n - k
  {
    if k < n {
      ContextsFailureSticks(ms, k, n - 1);
    }
  }

  /** `create_manuscript_context_file`, with the manuscripts as loaded from the input file. */
  method CreateManuscriptContexts(manuscripts: Value) returns (r: Outcome<seq<ContextRecord>>)
    ensures Elements(manuscripts).Failure? ==> r == Failure(Elements(manuscripts).error)
    ensures Elements(manuscripts).Success? ==>
      r == Contexts(Elements(manuscripts).value, |Elements(manuscripts).value|)
  {
    var loaded := Elements(manuscripts);
    if loaded.Failure? {
      return Failure(loaded.error);
    }
    var ms := loaded.value;
    var contexts: seq<ContextRecord> := [];
    var i := 0;
    while i < |ms|
      invariant 0 <= i <= |ms|
      invariant Contexts(ms, i) == Success(contexts)
    {
      var context := ContextOf(ms[i]);
      if context.Failure? {
        ContextsFailureSticks(ms, i + 1, |ms|);
        return Failure(context.error);
      }
      contexts := contexts + [context.value];
      i := i + 1;
    }
    return Success(contexts);
  }

  /** One context per manuscript, in input order. */
  lemma {:induction false} ContextsShape(ms: seq<Value>, n: nat)
    requires n <= |ms|
    ensures Contexts(ms, n).Success? <==> forall i :: 0 <= i < n ==> ContextOf(ms[i]).Success?
    ensures Contexts(ms, n).Success? ==>
      && |Contexts(ms, n).value| == n
      && forall i :: 0 <= i < n ==> Contexts(ms, n).value[i] == ContextOf(ms[i]).value
  {
    if n != 0 {
      ContextsShape(ms, n - 1);
    }
  }
}
