/**
 * What the eLife and F1000Research collectors have in common: Python's
 * `seq[:n]`, the bookkeeping of `collect_manuscripts` (attempted,
 * successful and failed counters, the error list), the `config` record of
 * a run, and the author-name filter.
 */
module Collectors {
  import opened Wrappers
  import opened PyData
  import opened Schema
  import opened Text

  /** `xs[:n]`: a negative bound counts from the end. */
  function PyTake<T>(xs: seq<T>, n: int): (r: seq<T>)
    ensures n >= 0 ==> |r| == if n <= |xs| then n else |xs|
    ensures n < 0 ==> |r| == if |xs| + n >= 0 then |xs| + n else 0
    ensures r == xs[..|r|]
  {
    if n >= 0 then (if n <= |xs| then xs[..n] else xs)
    else if |xs| + n >= 0 then xs[..|xs| + n] else []
  }

  // ------------------------------------------------------ collect_manuscripts

  /** The error text a failed `collect_single_manuscript` is logged with. */
  const FailedToCollect := "Failed to collect manuscript"

  /** `str(e)` of the `ValueError` that `time.sleep` raises for a negative delay. */
  const SleepError := "sleep length must be non-negative"

  /**
   * One iteration of the loop in `collect_manuscripts`: what the loop logs
   * when collection returns `None` (`entry`), what the exception handler
   * logs as the article (`raisedEntry`), and what `collect_single_manuscript`
   * returned.
   */
  datatype Attempt = Attempt(entry: string, raisedEntry: string, got: Option<Manuscript>)

  /** The loop's state: the manuscripts collected and the counters of the metadata. */
  datatype Tally = Tally(manuscripts: seq<Manuscript>, attempted: nat, successful: nat, failed: nat, errors: seq<ErrorEntry>)

  /**
   * One iteration: count the attempt, keep the manuscript or log the
   * failure, then sleep; `time.sleep` raises for a negative delay, and the
   * handler counts one more failure and logs it.
   */
  function Visit(t: Tally, a: Attempt, delay: real): Tally {
    var counted := t.(attempted := t.attempted + 1);
    var recorded :=
      if a.got.Some? then counted.(manuscripts := counted.manuscripts + [a.got.value], successful := counted.successful + 1)
      else counted.(failed := counted.failed + 1, errors := counted.errors + [ErrorEntry(a.entry, FailedToCollect)]);
    if delay < 0.0 then recorded.(failed := recorded.failed + 1, errors := recorded.errors + [ErrorEntry(a.raisedEntry, SleepError)])
    else recorded
  }

  /** The state after the first `n` iterations. */
  function Run(attempts: seq<Attempt>, n: nat, delay: real): Tally
    requires n <= |attempts|
  {
    if n == 0 then Tally([], 0, 0, 0, []) else Visit(Run(attempts, n - 1, delay), attempts[n - 1], delay)
  }

  /** The manuscripts the first `n` attempts returned, in order. */
  function Collected(attempts: seq<Attempt>, n: nat): seq<Manuscript>
    requires n <= |attempts|
  {
    if n == 0 then [] else Collected(attempts, n - 1) + if attempts[n - 1].got.Some? then [attempts[n - 1].got.value] else []
  }

  /**
   * Every attempt is counted; every failure comes with exactly one error
   * entry; the manuscripts kept are those collection returned, in order.
   * With a usable delay each attempt is exactly one success or one failure;
   * with a negative one each attempt also fails once more.
   */
  lemma {:induction false} RunBookkeeping(attempts: seq<Attempt>, n: nat, delay: real)
    requires n <= |attempts|
    ensures var t := Run(attempts, n, delay);
      && t.attempted == n
      && t.failed == |t.errors|
      && t.manuscripts == Collected(attempts, n)
      && t.successful == |t.manuscripts|
      && (delay >= 0.0 ==> t.successful + t.failed == t.attempted)
      && (delay < 0.0 ==> t.successful + t.failed == 2 * t.attempted)
  {
    if n != 0 {
      RunBookkeeping(attempts, n - 1, delay);
    }
  }

  /** With a usable delay, every error entry is a failed collection of a processed article. */
  lemma {:induction false} RunErrors(attempts: seq<Attempt>, n: nat, delay: real, k: nat)
    requires n <= |attempts| && delay >= 0.0
    requires k < |Run(attempts, n, delay).errors|
    ensures Run(attempts, n, delay).errors[k].error == FailedToCollect
    ensures exists j :: 0 <= j < n && attempts[j].got.None? && Run(attempts, n, delay).errors[k].articleId == attempts[j].entry
  {
    var prev := Run(attempts, n - 1, delay);
    if k < |prev.errors| {
      RunErrors(attempts, n - 1, delay, k);
    } else {
      assert attempts[n - 1].got.None?;
    }
  }

  /** The `config` recorded in the collection metadata. */
  function RunConfig(numManuscripts: int, subjectAreas: Option<seq<string>>, startDate: Option<string>): (c: map<string, Value>)
    ensures c.Keys == {"num_manuscripts", "subject_areas", "start_date"}
    ensures IsJson(Dict(c))
  {
    map["num_manuscripts" := IntValue(numManuscripts), "subject_areas" := OptStrList(subjectAreas), "start_date" := OptStr(startDate)]
  }

  /** The metadata of a finished run. */
  function Finished(t: Tally, collectionId: string, source: ReviewSource, startTime: string, endTime: string, config: map<string, Value>): CollectionMetadata {
    CollectionMetadata(collectionId, source, startTime, Some(endTime), t.attempted, t.successful, t.failed, t.errors, config)
  }

  // ------------------------------------------------------------ manuscripts

  /** `title or f"Article {article_id}"`: an empty or missing title falls back. */
  function TitleOr(title: Option<string>, articleId: string): (r: string)
    ensures r != []
    ensures title.Some? && title.value != [] ==> r == title.value
    ensures title.None? || title.value == [] ==> r == "Article " + articleId
  {
    if title.Some? && title.value != [] then title.value else "Article " + articleId
  }

  /** The `raw_data` both collectors record. */
  const HtmlCollected: map<string, Value> := map["html_collected" := Bool(true)]

  /**
   * `Manuscript(...)` as both collectors call it: the fields they pass,
   * every other one at its default, `raw_data={'html_collected': True}`,
   * and the review count filled in by `__post_init__`.
   */
  function NewManuscript(
    articleId: string, source: ReviewSource, url: string, title: string, abstractText: Option<string>,
    authors: seq<string>, keywords: seq<string>, doi: Option<string>, reviews: seq<Review>,
    responses: seq<AuthorResponse>, assessments: seq<EditorialAssessment>,
    publicationDate: Option<string>, decision: ReviewDecision, collectionDate: string): (m: Manuscript)
    ensures m.manuscriptId == articleId && m.source == source && m.sourceUrl == url && m.title == title
    ensures m.reviews == reviews && m.numReviews == |reviews| && m.decision == decision
    ensures m.editorialAssessments == assessments && m.authorResponses == responses
    ensures m.abstractText == abstractText && m.authors == authors && m.keywords == keywords && m.doi == doi
    ensures m.publicationDate == publicationDate && m.collectionDate == collectionDate
    ensures m.subjectAreas == [] && m.preprintDate.None? && m.submissionDate.None?
    ensures m.preprintDoi.None? && m.decisionDate.None? && m.reviewRounds == 1
    ensures m.rawData == HtmlCollected
  {
    PostInitManuscript(Manuscript(
      articleId, source, url, title, abstractText, authors, keywords, [], None, None, publicationDate,
      doi, None, reviews, responses, assessments, decision, None, 0, 1, collectionDate,
      HtmlCollected))
  }

  /** A review's identifier and its reviewer's: the article and the 1-based section position. */
  function PositionId(articleId: string, kind: string, position: nat): string {
    articleId + "_" + kind + "_" + DecimalString(position)
  }

  /** Different positions give different identifiers. */
  lemma PositionIdInjective(articleId: string, kind: string, p: nat, q: nat)
    requires PositionId(articleId, kind, p) == PositionId(articleId, kind, q)
    ensures p == q
  {
    var prefix := articleId + "_" + kind + "_";
    assert PositionId(articleId, kind, p)[|prefix|..] == DecimalString(p);
    assert PositionId(articleId, kind, q)[|prefix|..] == DecimalString(q);
    DecimalStringInjective(p, q);
  }

  /**
   * The 1-based positions of the first `n` sections that `keep` accepts:
   * the section indices that review identifiers are built from.
   */
  function KeptPositions<T>(sections: seq<T>, keep: T -> bool, n: nat): (ps: seq<nat>)
    requires n <= |sections|
    ensures |ps| <= n
    ensures forall k :: 0 <= k < |ps| ==> 1 <= ps[k] <= n && keep(sections[ps[k] - 1])
    ensures forall j, k :: 0 <= j < k < |ps| ==> ps[j] < ps[k]
  {
    if n == 0 then [] else KeptPositions(sections, keep, n - 1) + if keep(sections[n - 1]) then [n] else []
  }

  /** No accepted section is skipped: a position is kept exactly when its section passes `keep`. */
  lemma {:induction false} KeptPositionsComplete<T>(sections: seq<T>, keep: T -> bool, n: nat, p: nat)
    requires n <= |sections|
    ensures p in KeptPositions(sections, keep, n) <==> 1 <= p <= n && keep(sections[p - 1])
  {
    if n != 0 {
      KeptPositionsComplete(sections, keep, n - 1, p);
    }
  }

  /**
   * What a loop over sections builds: `build(p, s)` for each of the first
   * `n` sections `s` that `keep` accepts, `p` being its 1-based position.
   */
  function KeptMap<T, R>(sections: seq<T>, keep: T -> bool, build: (nat, T) -> R, n: nat): seq<R>
    requires n <= |sections|
  {
    if n == 0 then [] else KeptMap(sections, keep, build, n - 1) + if keep(sections[n - 1]) then [build(n, sections[n - 1])] else []
  }

  /** The k-th element built comes from the section at the k-th kept position. */
  lemma {:induction false} KeptMapAtPositions<T, R>(sections: seq<T>, keep: T -> bool, build: (nat, T) -> R, n: nat)
    requires n <= |sections|
    ensures |KeptMap(sections, keep, build, n)| == |KeptPositions(sections, keep, n)|
    ensures forall k :: 0 <= k < |KeptPositions(sections, keep, n)| ==>
      var p := KeptPositions(sections, keep, n)[k];
      KeptMap(sections, keep, build, n)[k] == build(p, sections[p - 1])
  {
    if n != 0 {
      KeptMapAtPositions(sections, keep, build, n - 1);
    }
  }

  /**
   * What the loop builds is complete: every section `keep` accepts yields
   * its item, and the items come in section order (`KeptMapAtPositions`).
   */
  lemma {:induction false} KeptMapComplete<T, R>(sections: seq<T>, keep: T -> bool, build: (nat, T) -> R, n: nat)
    requires n <= |sections|
    ensures forall k :: 0 <= k < n && keep(sections[k]) ==> build(k + 1, sections[k]) in KeptMap(sections, keep, build, n)
  {
    if n != 0 {
      KeptMapComplete(sections, keep, build, n - 1);
    }
  }

  /**
   * Items built with the position identifier of their section are
   * pairwise distinct in that identifier: review identifiers never repeat.
   */
  lemma KeptMapIdsDistinct<T, R>(sections: seq<T>, keep: T -> bool, build: (nat, T) -> R, n: nat,
                                 id: R -> string, articleId: string, kind: string)
    requires n <= |sections|
    requires forall p: nat, s: T :: id(build(p, s)) == PositionId(articleId, kind, p)
    ensures var items := KeptMap(sections, keep, build, n);
      forall j, k :: 0 <= j < k < |items| ==> id(items[j]) != id(items[k])
  {
    var items := KeptMap(sections, keep, build, n);
    var ps := KeptPositions(sections, keep, n);
    KeptMapAtPositions(sections, keep, build, n);
    forall j, k | 0 <= j < k < |items|
      ensures id(items[j]) != id(items[k])
    {
      if id(items[j]) == id(items[k]) {
        assert id(items[j]) == PositionId(articleId, kind, ps[j]);
        assert id(items[k]) == PositionId(articleId, kind, ps[k]);
        PositionIdInjective(articleId, kind, ps[j], ps[k]);
      }
    }
  }

  // ---------------------------------------------------------------- authors

  /** An author name is kept only when it is longer than two characters. */
  predicate LongName(name: string) {
    |name| > 2
  }

  /** `[a for a in names[:n] if a and len(a) > 2]`. */
  function LongNames(names: seq<string>, n: nat): (r: seq<string>)
    requires n <= |names|
    ensures |r| <= n
    ensures forall k :: 0 <= k < |r| ==> |r[k]| > 2
  {
    if n == 0 then [] else LongNames(names, n - 1) + if LongName(names[n - 1]) then [names[n - 1]] else []
  }

  /**
   * The name filter is the section loop's shape with the name itself as
   * the item, so every long name is kept, in order (`KeptMapComplete`,
   * `KeptMapAtPositions`).
   */
  lemma {:induction false} LongNamesKept(names: seq<string>, n: nat)
    requires n <= |names|
    ensures LongNames(names, n) == KeptMap(names, LongName, (p: nat, name: string) => name, n)
  {
    if n != 0 {
      LongNamesKept(names, n - 1);
    }
  }

  /** Each name is kept as often as it occurs among the first `n` when it is long, and never otherwise. */
  lemma {:induction false} LongNamesKeepsExactly(names: seq<string>, n: nat, x: string)
    requires n <= |names|
    ensures multiset(LongNames(names, n))[x] == if |x| > 2 then multiset(names[..n])[x] else 0
  {
    if n != 0 {
      LongNamesKeepsExactly(names, n - 1, x);
      assert names[..n] == names[..n - 1] + [names[n - 1]];
    }
  }

  /** The names kept from a prefix are a prefix of the names kept from the whole. */
  lemma {:induction false} LongNamesPrefix(names: seq<string>, m: nat, n: nat)
    requires m <= n <= |names|
    ensures |LongNames(names, m)| <= |LongNames(names, n)|
    ensures LongNames(names, m) == LongNames(names, n)[..|LongNames(names, m)|]
    decreases n - m
  {
    if m < n {
      LongNamesPrefix(names, m, n - 1);
    }
  }

  /**
   * Filtering the first ten names (F1000Research) keeps a prefix of what
   * capping the filtered names at ten (eLife) keeps: the eLife order of
   * operations never yields fewer authors.
   */
  lemma CapThenFilterIsPrefix(names: seq<string>)
    ensures var capFirst := LongNames(PyTake(names, 10), |PyTake(names, 10)|);
      var filterFirst := PyTake(LongNames(names, |names|), 10);
      |capFirst| <= |filterFirst| && capFirst == filterFirst[..|capFirst|]
  {
    var m := |PyTake(names, 10)|;
    LongNamesSameOnPrefix(names, PyTake(names, 10), m);
    LongNamesPrefix(names, m, |names|);
  }

  /** Filtering only looks at the names it is given. */
  lemma {:induction false} LongNamesSameOnPrefix(names: seq<string>, prefix: seq<string>, n: nat)
    requires n <= |prefix| <= |names| && prefix == names[..|prefix|]
    ensures LongNames(prefix, n) == LongNames(names, n)
  {
    if n != 0 {
      LongNamesSameOnPrefix(names, prefix, n - 1);
      assert prefix[n - 1] == names[n - 1];
    }
  }
}
