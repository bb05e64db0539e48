/**
 * The collection orchestrator: the configuration and its command-line
 * overrides, the merge of the two collectors' results with the
 * minimum-review filter, and the summary statistics written next to the
 * collected manuscripts.
 */
module CollectReviews {
  import opened Wrappers
  import opened Schema
  import ElifeCollector
  import F1000Collector

  // ---------------------------------------------------------- configuration

  /** `CollectionConfig`: the settings of one collection run. */
  class CollectionConfig {
    var numManuscripts: int
    var collectFromElife: bool
    var collectFromF1000: bool
    var rateLimitDelay: real
    var subjectAreas: Option<seq<string>>
    var startDate: Option<string>
    var outputDir: string
    var saveIndividualFiles: bool
    var saveCombinedFile: bool
    var saveSummaryStats: bool
    var minReviewsPerManuscript: int
    var skipManuscriptsWithoutReviews: bool
    var verbose: bool

    /** `CollectionConfig()` with every field at its default. */
    constructor ()
      ensures numManuscripts == 50
      ensures collectFromElife && collectFromF1000
      ensures rateLimitDelay == 2.0
      ensures subjectAreas == None && startDate == None
      ensures outputDir == "./collected_data"
      ensures saveIndividualFiles && saveCombinedFile && saveSummaryStats
      ensures minReviewsPerManuscript == 1
      ensures skipManuscriptsWithoutReviews
      ensures verbose
    {
      numManuscripts := 50;
      collectFromElife := true;
      collectFromF1000 := true;
      rateLimitDelay := 2.0;
      subjectAreas := None;
      startDate := None;
      outputDir := "./collected_data";
      saveIndividualFiles := true;
      saveCombinedFile := true;
      saveSummaryStats := true;
      minReviewsPerManuscript := 1;
      skipManuscriptsWithoutReviews := true;
      verbose := true;
    }

    /**
     * The override block of `main`: each option replaces its setting only
     * when it is truthy (so `--num-manuscripts 0` and `--rate-limit 0`
     * are ignored), and a source list sets each source flag to whether
     * the source is named. Nothing else changes.
     */
    method ApplyOverrides(args: CommandLine)
      modifies this
      ensures Truthy(args.numManuscripts) ==> numManuscripts == args.numManuscripts.value
      ensures !Truthy(args.numManuscripts) ==> numManuscripts == old(numManuscripts)
      ensures args.sources.Some? && args.sources.value != [] ==>
        && (collectFromElife <==> "elife" in args.sources.value)
        && (collectFromF1000 <==> "f1000" in args.sources.value)
      ensures !(args.sources.Some? && args.sources.value != []) ==>
        collectFromElife == old(collectFromElife) && collectFromF1000 == old(collectFromF1000)
      ensures args.outputDir.Some? && args.outputDir.value != "" ==> outputDir == args.outputDir.value
      ensures !(args.outputDir.Some? && args.outputDir.value != "") ==> outputDir == old(outputDir)
      ensures args.rateLimit.Some? && args.rateLimit.value != 0.0 ==> rateLimitDelay == args.rateLimit.value
      ensures !(args.rateLimit.Some? && args.rateLimit.value != 0.0) ==> rateLimitDelay == old(rateLimitDelay)
      ensures subjectAreas == old(subjectAreas) && startDate == old(startDate)
      ensures saveIndividualFiles == old(saveIndividualFiles) && saveCombinedFile == old(saveCombinedFile)
      ensures saveSummaryStats == old(saveSummaryStats) && verbose == old(verbose)
      ensures minReviewsPerManuscript == old(minReviewsPerManuscript)
      ensures skipManuscriptsWithoutReviews == old(skipManuscriptsWithoutReviews)
    {
      if Truthy(args.numManuscripts) {
        numManuscripts := args.numManuscripts.value;
      }
      if args.sources.Some? && args.sources.value != [] {
        collectFromElife := "elife" in args.sources.value;
        collectFromF1000 := "f1000" in args.sources.value;
      }
      if args.outputDir.Some? && args.outputDir.value != "" {
        outputDir := args.outputDir.value;
      }
      if args.rateLimit.Some? && args.rateLimit.value != 0.0 {
        rateLimitDelay := args.rateLimit.value;
      }
    }
  }

  /** The parsed options; `None` for an option not given. */
  datatype CommandLine = CommandLine(
    numManuscripts: Option<int>,
    sources: Option<seq<string>>,
    outputDir: Option<string>,
    rateLimit: Option<real>)

  /** `if args.num_manuscripts:` — given and non-zero. */
  predicate Truthy(n: Option<int>) {
    n.Some? && n.value != 0
  }

  // ------------------------------------------------------------ filtering

  predicate Enough(m: Manuscript, minReviews: int) {
    |m.reviews| >= minReviews
  }

  /** `[m for m in ms if len(m.reviews) >= min_reviews]`. */
  function Filter(ms: seq<Manuscript>, minReviews: int): (kept: seq<Manuscript>)
    ensures |kept| <= |ms|
    ensures forall i :: 0 <= i < |kept| ==> Enough(kept[i], minReviews)
  {
    if ms == [] then []
    else Filter(ms[..|ms| - 1], minReviews) + if Enough(ms[|ms| - 1], minReviews) then [ms[|ms| - 1]] else []
  }

  /** The number of manuscripts with too few reviews. */
  function CountShort(ms: seq<Manuscript>, minReviews: int): nat {
    if ms == [] then 0
    else CountShort(ms[..|ms| - 1], minReviews) + if Enough(ms[|ms| - 1], minReviews) then 0 else 1
  }

  /** Filtering distributes over concatenation, so it keeps the original order. */
  lemma {:induction false} FilterAppend(a: seq<Manuscript>, b: seq<Manuscript>, minReviews: int)
    ensures Filter(a + b, minReviews) == Filter(a, minReviews) + Filter(b, minReviews)
    decreases |b|
  {
    if b == [] {
      assert a + b == a;
    } else {
      var b' := b[..|b| - 1];
      assert (a + b)[..|a + b| - 1] == a + b';
      FilterAppend(a, b', minReviews);
    }
  }

  /** Exactly the manuscripts with enough reviews are kept, each as often as it occurs. */
  lemma {:induction false} FilterKeepsExactly(ms: seq<Manuscript>, minReviews: int, m: Manuscript)
    ensures multiset(Filter(ms, minReviews))[m] == if Enough(m, minReviews) then multiset(ms)[m] else 0
  {
    if ms != [] {
      var init := ms[..|ms| - 1];
      FilterKeepsExactly(init, minReviews, m);
      assert ms == init + [ms[|ms| - 1]];
    }
  }

  /** Filtering twice keeps what filtering once kept. */
  lemma {:induction false} FilterIdempotent(ms: seq<Manuscript>, minReviews: int)
    ensures Filter(Filter(ms, minReviews), minReviews) == Filter(ms, minReviews)
  {
    if ms != [] {
      var init := ms[..|ms| - 1];
      FilterIdempotent(init, minReviews);
      var last := if Enough(ms[|ms| - 1], minReviews) then [ms[|ms| - 1]] else [];
      FilterAppend(Filter(init, minReviews), last, minReviews);
    }
  }

  /** `filtered_count`: what was dropped is exactly the manuscripts with too few reviews. */
  lemma {:induction false} FilteredCount(ms: seq<Manuscript>, minReviews: int)
    ensures |ms| - |Filter(ms, minReviews)| == CountShort(ms, minReviews)
  {
    if ms != [] {
      FilteredCount(ms[..|ms| - 1], minReviews);
    }
  }

  // ------------------------------------------------------------ collect_all

  /** What `collect_all` gathers from one source's run: nothing when the source is disabled. */
  function Gathered(enabled: bool, run: (seq<Manuscript>, CollectionMetadata)): (seq<Manuscript>, seq<CollectionMetadata>) {
    if enabled then (run.0, [run.1]) else ([], [])
  }

  /**
   * `collect_all` without its logging and saving: each enabled collector
   * runs `collect_manuscripts` with the configured count, filters and rate
   * limit; eLife results come first, then F1000Research, then the
   * minimum-review filter when the configuration asks for it.
   */
  method CollectAll(config: CollectionConfig, elife: ElifeCollector.Site, f1000: F1000Collector.Site)
    returns (manuscripts: seq<Manuscript>, metadata: seq<CollectionMetadata>, filteredCount: nat)
    ensures
      var e := ElifeCollector.Collection(config.numManuscripts, config.subjectAreas, config.startDate, elife, config.rateLimitDelay);
      var f := F1000Collector.Collection(config.numManuscripts, config.subjectAreas, config.startDate, f1000, config.rateLimitDelay);
      var all := Gathered(config.collectFromElife, e).0 + Gathered(config.collectFromF1000, f).0;
      && manuscripts == (if config.skipManuscriptsWithoutReviews then Filter(all, config.minReviewsPerManuscript) else all)
      && filteredCount == |all| - |manuscripts|
      && filteredCount == (if config.skipManuscriptsWithoutReviews then CountShort(all, config.minReviewsPerManuscript) else 0)
      && metadata == Gathered(config.collectFromElife, e).1 + Gathered(config.collectFromF1000, f).1
  {
    var n, areas, since, delay := config.numManuscripts, config.subjectAreas, config.startDate, config.rateLimitDelay;
    ghost var e := ElifeCollector.Collection(n, areas, since, elife, delay);
    ghost var f := F1000Collector.Collection(n, areas, since, f1000, delay);
    manuscripts := [];
    metadata := [];
    if config.collectFromElife {
      var ms, md := ElifeCollector.CollectManuscripts(n, areas, since, elife, delay);
      manuscripts := ms;
      metadata := [md];
    }
    assert (manuscripts, metadata) == Gathered(config.collectFromElife, e);
    if config.collectFromF1000 {
      var ms, md := F1000Collector.CollectManuscripts(n, areas, since, f1000, delay);
      manuscripts := manuscripts + ms;
      metadata := metadata + [md];
    }
    assert manuscripts == Gathered(config.collectFromElife, e).0 + Gathered(config.collectFromF1000, f).0;
    assert metadata == Gathered(config.collectFromElife, e).1 + Gathered(config.collectFromF1000, f).1;
    filteredCount := 0;
    if config.skipManuscriptsWithoutReviews {
      var originalCount := |manuscripts|;
      FilteredCount(manuscripts, config.minReviewsPerManuscript);
      manuscripts := Filter(manuscripts, config.minReviewsPerManuscript);
      filteredCount := originalCount - |manuscripts|;
    }
  }

  // ------------------------------------------------------ summary statistics

  function TotalReviews(ms: seq<Manuscript>): nat {
    if ms == [] then 0 else TotalReviews(ms[..|ms| - 1]) + |ms[|ms| - 1].reviews|
  }

  function TotalReviewWords(ms: seq<Manuscript>): int {
    if ms == [] then 0 else TotalReviewWords(ms[..|ms| - 1]) + TotalWords(ms[|ms| - 1].reviews)
  }

  /** One entry of `by_source`. */
  datatype SourceTally = SourceTally(count: nat, withReviews: nat, totalReviews: nat)

  /** `by_source[source]`, or all zeros for a source not seen. */
  function TallyOf(bySource: map<string, SourceTally>, source: string): SourceTally {
    if source in bySource then bySource[source] else SourceTally(0, 0, 0)
  }

  /** The effect of one loop iteration on `by_source`. */
  function CountManuscript(bySource: map<string, SourceTally>, m: Manuscript): map<string, SourceTally> {
    var source := SourceValue(m.source);
    var t := TallyOf(bySource, source);
    bySource[source := if m.reviews != []
      then SourceTally(t.count + 1, t.withReviews + 1, t.totalReviews + |m.reviews|)
      else SourceTally(t.count + 1, t.withReviews, t.totalReviews)]
  }

  /** `by_source` after the first `n` manuscripts. */
  function BySource(ms: seq<Manuscript>, n: nat): map<string, SourceTally>
    requires n <= |ms|
  {
    if n == 0 then map[] else CountManuscript(BySource(ms, n - 1), ms[n - 1])
  }

  function CountFrom(ms: seq<Manuscript>, n: nat, s: ReviewSource): nat
    requires n <= |ms|
  {
    if n == 0 then 0 else CountFrom(ms, n - 1, s) + if ms[n - 1].source == s then 1 else 0
  }

  function ReviewsFrom(ms: seq<Manuscript>, n: nat, s: ReviewSource): nat
    requires n <= |ms|
  {
    if n == 0 then 0 else ReviewsFrom(ms, n - 1, s) + if ms[n - 1].source == s then |ms[n - 1].reviews| else 0
  }

  lemma SourceValueInjective(s: ReviewSource, t: ReviewSource)
    requires SourceValue(s) == SourceValue(t)
    ensures s == t
  {
    assert SourceFromValue(SourceValue(s)) == Some(s);
    assert SourceFromValue(SourceValue(t)) == Some(t);
  }

  /**
   * Each source's tally counts that source's manuscripts and their
   * reviews, and never more manuscripts with reviews than manuscripts.
   */
  lemma {:induction false} BySourceCounts(ms: seq<Manuscript>, n: nat, s: ReviewSource)
    requires n <= |ms|
    ensures TallyOf(BySource(ms, n), SourceValue(s)).count == CountFrom(ms, n, s)
    ensures TallyOf(BySource(ms, n), SourceValue(s)).totalReviews == ReviewsFrom(ms, n, s)
    ensures TallyOf(BySource(ms, n), SourceValue(s)).withReviews <= TallyOf(BySource(ms, n), SourceValue(s)).count
  {
    if n != 0 {
      BySourceCounts(ms, n - 1, s);
      var m := ms[n - 1];
      CountManuscriptTally(BySource(ms, n - 1), m, SourceValue(s));
      if m.source != s && SourceValue(m.source) == SourceValue(s) {
        SourceValueInjective(m.source, s);
      }
    }
  }

  /** One iteration changes only the tally of the manuscript's own source. */
  lemma CountManuscriptTally(bySource: map<string, SourceTally>, m: Manuscript, key: string)
    ensures var t := TallyOf(bySource, key);
      TallyOf(CountManuscript(bySource, m), key) ==
        if key != SourceValue(m.source) then t
        else if m.reviews != [] then SourceTally(t.count + 1, t.withReviews + 1, t.totalReviews + |m.reviews|)
        else SourceTally(t.count + 1, t.withReviews, t.totalReviews)
  {
  }

  /** `by_source` has keys only for source values. */
  lemma {:induction false} BySourceKeys(ms: seq<Manuscript>, n: nat)
    requires n <= |ms|
    ensures forall k :: k in BySource(ms, n) ==> exists s :: k == SourceValue(s)
  {
    if n != 0 {
      BySourceKeys(ms, n - 1);
    }
  }

  /** Every manuscript comes from exactly one source, so the per-source counts sum up. */
  lemma {:induction false} SourcesPartition(ms: seq<Manuscript>, n: nat)
    requires n <= |ms|
    ensures CountFrom(ms, n, Elife) + CountFrom(ms, n, F1000Research)
      + CountFrom(ms, n, Biorxiv) + CountFrom(ms, n, OtherSource) == n
    ensures ReviewsFrom(ms, n, Elife) + ReviewsFrom(ms, n, F1000Research)
      + ReviewsFrom(ms, n, Biorxiv) + ReviewsFrom(ms, n, OtherSource) == TotalReviews(ms[..n])
  {
    if n != 0 {
      SourcesPartition(ms, n - 1);
      assert ms[..n][..n - 1] == ms[..n - 1];
    }
  }

  /**
   * The `by_source` counts add up to the number of manuscripts, and the
   * per-source review totals to `total_reviews`.
   */
  lemma BySourceSums(ms: seq<Manuscript>)
    ensures var b := BySource(ms, |ms|);
      && TallyOf(b, "elife").count + TallyOf(b, "f1000research").count
         + TallyOf(b, "biorxiv").count + TallyOf(b, "other").count == |ms|
      && TallyOf(b, "elife").totalReviews + TallyOf(b, "f1000research").totalReviews
         + TallyOf(b, "biorxiv").totalReviews + TallyOf(b, "other").totalReviews == TotalReviews(ms)
  {
    BySourceCounts(ms, |ms|, Elife);
    BySourceCounts(ms, |ms|, F1000Research);
    BySourceCounts(ms, |ms|, Biorxiv);
    BySourceCounts(ms, |ms|, OtherSource);
    SourcesPartition(ms, |ms|);
    assert ms[..|ms|] == ms;
  }

  /** `sum(1 for m in ms if len(m.reviews) >= 2)`. */
  function CountMultiple(ms: seq<Manuscript>): (c: nat)
    ensures c <= |ms|
  {
    if ms == [] then 0 else CountMultiple(ms[..|ms| - 1]) + if |ms[|ms| - 1].reviews| >= 2 then 1 else 0
  }

  /** `sum(1 for m in ms if m.has_disagreement())`. */
  function CountDisagreement(ms: seq<Manuscript>): (c: nat)
    ensures c <= CountMultiple(ms)
  {
    if ms == [] then 0
    else
      var m := ms[|ms| - 1];
      if HasDisagreement(m) then DisagreementNeedsTwoReviews(m); CountDisagreement(ms[..|ms| - 1]) + 1
      else CountDisagreement(ms[..|ms| - 1])
  }

  /** Two distinct labels need two reviews. */
  lemma DisagreementNeedsTwoReviews(m: Manuscript)
    requires HasDisagreement(m)
    ensures |m.reviews| >= 2
  {
    HasDisagreementIff(m);
    var i, j :| DisagreeingPair(m.reviews, i, j);
    assert i != j;
  }

  /** One entry of `validation_issues`. */
  datatype IssueEntry = IssueEntry(manuscriptId: string, source: string, issues: seq<string>)

  /** The entries of `validation_issues` for the first `n` manuscripts. */
  function IssueEntries(ms: seq<Manuscript>, n: nat): seq<IssueEntry>
    requires n <= |ms|
  {
    if n == 0 then []
    else
      var m := ms[n - 1];
      var issues := ValidationIssues(m);
      IssueEntries(ms, n - 1) + if issues != [] then [IssueEntry(m.manuscriptId, SourceValue(m.source), issues)] else []
  }

  /** One manuscript of the validation loop: an entry exactly when it has issues. */
  lemma IssueEntriesStep(ms: seq<Manuscript>, k: nat)
    requires k < |ms|
    ensures var issues := ValidationIssues(ms[k]);
      IssueEntries(ms, k + 1) ==
        IssueEntries(ms, k) + if issues != [] then [IssueEntry(ms[k].manuscriptId, SourceValue(ms[k].source), issues)] else []
  {
  }

  function CountIncomplete(ms: seq<Manuscript>, n: nat): nat
    requires n <= |ms|
  {
    if n == 0 then 0 else CountIncomplete(ms, n - 1) + if IsComplete(ms[n - 1]) then 0 else 1
  }

  /** `manuscripts_with_validation_issues` counts exactly the incomplete manuscripts. */
  lemma {:induction false} IssueEntriesCount(ms: seq<Manuscript>, n: nat)
    requires n <= |ms|
    ensures |IssueEntries(ms, n)| == CountIncomplete(ms, n)
    ensures forall k :: 0 <= k < |IssueEntries(ms, n)| ==> IssueEntries(ms, n)[k].issues != []
  {
    if n != 0 {
      IssueEntriesCount(ms, n - 1);
      ValidateEmptyIff(ms[n - 1]);
    }
  }

  /** One entry of `collection_metadata`. */
  datatype RunSummary = RunSummary(source: string, attempted: int, successful: int, failed: int, errorCount: nat)

  function RunSummaries(metadata: seq<CollectionMetadata>): (r: seq<RunSummary>)
    ensures |r| == |metadata|
    ensures forall k :: 0 <= k < |metadata| ==> r[k].errorCount == |metadata[k].errors|
  {
    seq(|metadata|, k requires 0 <= k < |metadata| =>
      var c := metadata[k];
      RunSummary(SourceValue(c.source), c.numAttempted, c.numSuccessful, c.numFailed, |c.errors|))
  }

  datatype SummaryStats = SummaryStats(
    collectionTimestamp: string,
    totalManuscripts: nat,
    totalReviews: nat,
    totalReviewWords: int,
    avgReviewsPerManuscript: real,
    avgWordsPerReview: real,
    bySource: map<string, SourceTally>,
    manuscriptsWithMultipleReviews: nat,
    manuscriptsWithPotentialDisagreement: nat,
    manuscriptsWithValidationIssues: nat,
    validationIssues: seq<IssueEntry>,
    collectionMetadata: seq<RunSummary>)

  /** `a / b if b else 0`, the guarded division both averages use. */
  function Average(a: int, b: nat): (r: real)
    ensures b == 0 ==> r == 0.0
    ensures b > 0 ==> r * (b as real) == a as real
  {
    if b > 0 then (a as real) / (b as real) else 0.0
  }

  /** The `by_source` loop of `_generate_summary_stats`. */
  method TallySources(manuscripts: seq<Manuscript>) returns (bySource: map<string, SourceTally>)
    ensures bySource == BySource(manuscripts, |manuscripts|)
  {
    bySource := map[];
    var i := 0;
    while i < |manuscripts|
      invariant 0 <= i <= |manuscripts|
      invariant bySource == BySource(manuscripts, i)
    {
      bySource := CountInto(bySource, manuscripts[i]);
      i := i + 1;
    }
  }

  /** The body of the `by_source` loop for one manuscript. */
  method CountInto(tallies: map<string, SourceTally>, m: Manuscript) returns (bySource: map<string, SourceTally>)
    ensures bySource == CountManuscript(tallies, m)
  {
    bySource := tallies;
    var source := SourceValue(m.source);
    if source !in bySource {
      bySource := bySource[source := SourceTally(0, 0, 0)];
    }
    var t := bySource[source];
    bySource := bySource[source := t.(count := t.count + 1)];
    if m.reviews != [] {
      var u := bySource[source];
      bySource := bySource[source := u.(withReviews := u.withReviews + 1, totalReviews := u.totalReviews + |m.reviews|)];
    }
  }

  /** The validation loop of `_generate_summary_stats`. */
  method CollectValidationIssues(manuscripts: seq<Manuscript>) returns (entries: seq<IssueEntry>)
    ensures entries == IssueEntries(manuscripts, |manuscripts|)
  {
    entries := [];
    var k := 0;
    while k < |manuscripts|
      invariant 0 <= k <= |manuscripts|
      invariant entries == IssueEntries(manuscripts, k)
    {
      IssueEntriesStep(manuscripts, k);
      entries := AddIssueEntry(entries, manuscripts[k]);
      k := k + 1;
    }
  }

  /** The body of the validation loop for one manuscript. */
  method AddIssueEntry(entries: seq<IssueEntry>, m: Manuscript) returns (r: seq<IssueEntry>)
    ensures var issues := ValidationIssues(m);
      r == entries + if issues != [] then [IssueEntry(m.manuscriptId, SourceValue(m.source), issues)] else []
  {
    r := entries;
    var issues := Validate(m);
    if issues != [] {
      r := r + [IssueEntry(m.manuscriptId, SourceValue(m.source), issues)];
    }
  }

  /**
   * `_generate_summary_stats`, with the clock reading passed in. Both
   * averages are 0 rather than a division by zero when there is nothing
   * to divide by, and only the first ten validation entries are kept.
   */
  method GenerateSummaryStats(manuscripts: seq<Manuscript>, metadata: seq<CollectionMetadata>, timestamp: string)
    returns (s: SummaryStats)
    ensures s.collectionTimestamp == timestamp
    ensures s.totalManuscripts == |manuscripts|
    ensures s.totalReviews == TotalReviews(manuscripts)
    ensures s.totalReviewWords == TotalReviewWords(manuscripts)
    ensures s.avgReviewsPerManuscript == Average(s.totalReviews, s.totalManuscripts)
    ensures s.avgWordsPerReview == Average(s.totalReviewWords, s.totalReviews)
    ensures s.bySource == BySource(manuscripts, |manuscripts|)
    ensures s.manuscriptsWithMultipleReviews == CountMultiple(manuscripts)
    ensures s.manuscriptsWithPotentialDisagreement == CountDisagreement(manuscripts)
    ensures s.manuscriptsWithValidationIssues == CountIncomplete(manuscripts, |manuscripts|)
    ensures var all := IssueEntries(manuscripts, |manuscripts|);
      s.validationIssues == if |all| <= 10 then all else all[..10]
    ensures s.collectionMetadata == RunSummaries(metadata)
  {
    var totalReviews := TotalReviews(manuscripts);
    var totalWords := TotalReviewWords(manuscripts);

    var bySource := TallySources(manuscripts);
    var validationIssues := CollectValidationIssues(manuscripts);
    IssueEntriesCount(manuscripts, |manuscripts|);

    s := SummaryStats(
      timestamp,
      |manuscripts|,
      totalReviews,
      totalWords,
      Average(totalReviews, |manuscripts|),
      Average(totalWords, totalReviews),
      bySource,
      CountMultiple(manuscripts),
      CountDisagreement(manuscripts),
      |validationIssues|,
      if |validationIssues| <= 10 then validationIssues else validationIssues[..10],
      RunSummaries(metadata));
  }
}
