/**
 * The quality metrics computed over the editorial briefs the pipeline
 * writes: the normalisation of the loaded file into a list of briefs, the
 * per-brief counts and evidence coverage, and the cross-brief summary.
 *
 * The briefs come from a JSON file, so each `.get`, `len`, slice, `sum`
 * and `Counter` can raise; the model returns the first exception raised.
 */
module AnalyzeResults {
  import opened Wrappers
  import opened PyData

  // ---------------------------------------------------------- load_results

  /** `load_results` after `json.load`: a list is returned as is, anything else is wrapped. */
  function LoadResults(data: Value): (briefs: seq<Value>)
    ensures data.List? ==> briefs == data.items
    ensures !data.List? ==> briefs == [data]
  {
    if data.List? then data.items else [data]
  }

  // --------------------------------------------------------- analyze_brief

  predicate Sized(v: Value) {
    v.Str? || v.List? || v.Dict?
  }

  /**
   * The issues a `for` loop over `major_issues` hands to `issue.get`: a
   * list yields its items; a non-empty `str` or `dict` yields strings,
   * which have no `get`.
   */
  function IssueItems(v: Value): (r: Outcome<seq<Value>>)
    requires Sized(v)
    ensures r.Success? <==> v.List? || Len(v).value == 0
    ensures r.Success? ==> |r.value| == Len(v).value
    ensures r.Success? && v.List? ==> r.value == v.items
  {
    if v.List? then Success(v.items)
    else if Len(v).value == 0 then Success([])
    else Failure(AttributeError)
  }

  /** An issue counts as evidenced when its `evidence_excerpts` is truthy (and so non-empty). */
  predicate Evidenced(issue: Value)
    requires issue.Dict?
  {
    Truthy(Lookup(issue.fields, "evidence_excerpts", Null))
  }

  /** An issue the evidence count can inspect without raising. */
  predicate InspectableIssue(issue: Value) {
    issue.Dict? && (Evidenced(issue) ==> Sized(Lookup(issue.fields, "evidence_excerpts", Null)))
  }

  /** `sum(1 for issue in issues[:n] if issue.get('evidence_excerpts') and len(...) > 0)`. */
  function EvidenceCount(issues: seq<Value>, n: nat): (r: Outcome<nat>)
    requires n <= |issues|
    ensures r.Success? <==> forall k :: 0 <= k < n ==> InspectableIssue(issues[k])
    ensures r.Success? ==> r.value <= n
  {
    if n == 0 then Success(0)
    else
      var before :- EvidenceCount(issues, n - 1);
      var issue := issues[n - 1];
      if !issue.Dict? then Failure(AttributeError)
      else
        var excerpts := Lookup(issue.fields, "evidence_excerpts", Null);
        if !Truthy(excerpts) then Success(before)
        else
          var size :- Len(excerpts);
          Success(before + if size > 0 then 1 else 0)
  }

  /** The number of issues among the first `n` whose excerpts are truthy. */
  function EvidencedCount(issues: seq<Value>, n: nat): (c: nat)
    requires n <= |issues|
    requires forall k :: 0 <= k < n ==> issues[k].Dict?
    ensures c <= n
  {
    if n == 0 then 0 else EvidencedCount(issues, n - 1) + if Evidenced(issues[n - 1]) then 1 else 0
  }

  /** The count `analyze_brief` computes is the number of evidenced issues. */
  lemma {:induction false} EvidenceCountCounts(issues: seq<Value>, n: nat)
    requires n <= |issues| && EvidenceCount(issues, n).Success?
    ensures forall k :: 0 <= k < n ==> issues[k].Dict?
    ensures EvidenceCount(issues, n).value == EvidencedCount(issues, n)
  {
    if n != 0 {
      EvidenceCountCounts(issues, n - 1);
      var issue := issues[n - 1];
      if Evidenced(issue) {
        TruthyIsNonEmpty(Lookup(issue.fields, "evidence_excerpts", Null));
      }
    }
  }

  /** `evidence_coverage`: the percentage of evidenced issues, or 100 without issues. */
  function Coverage(evidenced: nat, total: nat): (c: real)
    requires evidenced <= total
    ensures 0.0 <= c <= 100.0
    ensures total == 0 ==> c == 100.0
    ensures total > 0 ==> c * (total as real) == 100.0 * (evidenced as real)
  {
    if total == 0 then 100.0
    else
      QuotientBetween(100.0 * (evidenced as real), total as real, 0.0, 100.0);
      100.0 * (evidenced as real) / (total as real)
  }

  /** A quotient of `s` by `n` lies between `lo` and `hi` when `s` lies between `n * lo` and `n * hi`. */
  lemma QuotientBetween(s: real, n: real, lo: real, hi: real)
    requires n > 0.0 && n * lo <= s <= n * hi
    ensures lo <= s / n <= hi
  {
    var q := s / n;
    assert q * n == s;
  }

  datatype ValidationInfo = ValidationInfo(passed: Value, confidence: Value, warnings: nat)

  datatype Analysis = Analysis(
    manuscriptId: Value,
    title: Value,
    numMajorIssues: nat,
    numMinorIssues: nat,
    numDisagreements: nat,
    numActionItems: nat,
    numOpenQuestions: nat,
    consensusConfidence: Value,
    evidenceCoverage: real,
    validation: Option<ValidationInfo>)

  /** `len(brief.get(key, []))`, with the brief already known to be a dict. */
  function ListLength(b: map<string, Value>, key: string): (r: Outcome<nat>)
    ensures key !in b ==> r == Success(0)
    ensures r.Success? <==> key !in b || Sized(b[key])
    ensures key in b && b[key].List? ==> r == Success(|b[key].items|)
    ensures r.Failure? ==> r.error == TypeError
  {
    Len(Lookup(b, key, List([])))
  }

  /** `analyze_brief`. */
  function AnalyzeBrief(brief: Value): (r: Outcome<Analysis>)
    ensures !brief.Dict? ==> r == Failure(AttributeError)
    ensures r.Success? ==>
      var b := brief.fields;
      && r.value.manuscriptId == Lookup(b, "manuscript_id", Str("unknown"))
      && Sized(Lookup(b, "manuscript_title", Str("")))
      && Len(r.value.title).Success? && Len(r.value.title).value <= 80
      && SliceTo(Lookup(b, "manuscript_title", Str("")), 80) == Success(r.value.title)
      && (Lookup(b, "manuscript_title", Str("")).Str? ==>
           var t := Lookup(b, "manuscript_title", Str("")).s;
           r.value.title == Str(t[..if |t| <= 80 then |t| else 80]))
      && ListLength(b, "major_issues") == Success(r.value.numMajorIssues)
      && ListLength(b, "minor_issues") == Success(r.value.numMinorIssues)
      && ListLength(b, "disagreements") == Success(r.value.numDisagreements)
      && ListLength(b, "action_checklist") == Success(r.value.numActionItems)
      && ListLength(b, "open_questions") == Success(r.value.numOpenQuestions)
      && Lookup(b, "consensus_snapshot", Dict(map[])).Dict?
      && r.value.consensusConfidence == Lookup(Lookup(b, "consensus_snapshot", Dict(map[])).fields, "confidence", Str("unknown"))
      && 0.0 <= r.value.evidenceCoverage <= 100.0
      && (r.value.numMajorIssues == 0 ==> r.value.evidenceCoverage == 100.0)
      && (r.value.validation.Some? <==> Lookup(b, "validation_passed", Null) != Null)
      && (r.value.validation.Some? ==>
           && r.value.validation.value.passed == b["validation_passed"]
           && r.value.validation.value.confidence == Lookup(b, "confidence_score", Num(0.0))
           && ListLength(b, "warnings") == Success(r.value.validation.value.warnings))
  {
    var manuscriptId :- Get(brief, "manuscript_id", Str("unknown"));
    // `brief` is a dict from here on, so `.get` on it cannot raise
    var b := brief.fields;
    var title :- SliceTo(Lookup(b, "manuscript_title", Str("")), 80);
    var numMajor :- ListLength(b, "major_issues");
    var numMinor :- ListLength(b, "minor_issues");
    var numDisagreements :- ListLength(b, "disagreements");
    var numActions :- ListLength(b, "action_checklist");
    var numQuestions :- ListLength(b, "open_questions");
    var confidence :- Get(Lookup(b, "consensus_snapshot", Dict(map[])), "confidence", Str("unknown"));
    var issues :- IssueItems(Lookup(b, "major_issues", List([])));
    var evidenced :- EvidenceCount(issues, |issues|);
    var coverage := Coverage(evidenced, |issues|);
    var validation := Lookup(b, "validation_passed", Null);
    if validation == Null then
      Success(Analysis(manuscriptId, title, numMajor, numMinor, numDisagreements, numActions,
        numQuestions, confidence, coverage, None))
    else
      var warnings :- ListLength(b, "warnings");
      Success(Analysis(manuscriptId, title, numMajor, numMinor, numDisagreements, numActions,
        numQuestions, confidence, coverage,
        Some(ValidationInfo(validation, Lookup(b, "confidence_score", IntValue(0)), warnings))))
  }

  /**
   * Evidence coverage is exactly the percentage of major issues with
   * non-empty evidence excerpts.
   */
  lemma CoverageIsEvidencedShare(brief: Value)
    requires AnalyzeBrief(brief).Success?
    ensures var a := AnalyzeBrief(brief).value;
      var issues := Lookup(brief.fields, "major_issues", List([]));
      && (a.numMajorIssues > 0 ==> issues.List?)
      && (issues.List? ==>
           && (forall k :: 0 <= k < |issues.items| ==> issues.items[k].Dict?)
           && a.evidenceCoverage == Coverage(EvidencedCount(issues.items, |issues.items|), |issues.items|))
  {
    var issues := Lookup(brief.fields, "major_issues", List([]));
    var items := IssueItems(issues).value;
    EvidenceCountCounts(items, |items|);
  }

  // ------------------------------------------------------ generate_summary

  /** `[analyze_brief(brief) for brief in briefs[:n]]`, or the first exception. */
  function Analyses(briefs: seq<Value>, n: nat): (r: Outcome<seq<Analysis>>)
    requires n <= |briefs|
    ensures r.Success? ==> |r.value| == n
    ensures r.Success? ==> forall k :: 0 <= k < n ==> AnalyzeBrief(briefs[k]) == Success(r.value[k])
  {
    if n == 0 then Success([])
    else
      var before :- Analyses(briefs, n - 1);
      var a :- AnalyzeBrief(briefs[n - 1]);
      Success(before + [a])
  }

  function Sum(xs: seq<real>): real {
    if xs == [] then 0.0 else xs[0] + Sum(xs[1..])
  }

  function Min(xs: seq<real>): real
    requires xs != []
  {
    if |xs| == 1 then xs[0] else if xs[0] <= Min(xs[1..]) then xs[0] else Min(xs[1..])
  }

  function Max(xs: seq<real>): real
    requires xs != []
  {
    if |xs| == 1 then xs[0] else if xs[0] >= Max(xs[1..]) then xs[0] else Max(xs[1..])
  }

  /** The mean of a non-empty list, 0 for an empty one, as the summary writes it. */
  function Mean(xs: seq<real>): (m: real)
    ensures xs == [] ==> m == 0.0
    ensures xs != [] ==> m * (|xs| as real) == Sum(xs)
  {
    if xs == [] then 0.0 else Sum(xs) / (|xs| as real)
  }

  function Counts(analyses: seq<Analysis>, field: Field): (xs: seq<real>)
    ensures |xs| == |analyses|
  {
    seq(|analyses|, k requires 0 <= k < |analyses| => CountOf(analyses[k], field) as real)
  }

  datatype Field = MajorIssues | MinorIssues | Disagreements | ActionItems

  function CountOf(a: Analysis, field: Field): nat {
    match field
    case MajorIssues => a.numMajorIssues
    case MinorIssues => a.numMinorIssues
    case Disagreements => a.numDisagreements
    case ActionItems => a.numActionItems
  }

  function CoverageScores(analyses: seq<Analysis>): (xs: seq<real>)
    ensures |xs| == |analyses|
    ensures forall k :: 0 <= k < |analyses| ==> xs[k] == analyses[k].evidenceCoverage
  {
    seq(|analyses|, k requires 0 <= k < |analyses| => analyses[k].evidenceCoverage)
  }

  datatype Totals = Totals(
    totalBriefs: nat,
    totalMajorIssues: real,
    totalMinorIssues: real,
    totalDisagreements: real,
    totalActionItems: real,
    avgMajorIssues: real,
    avgMinorIssues: real,
    avgActionItems: real,
    avgEvidenceCoverage: real,
    minEvidenceCoverage: real,
    maxEvidenceCoverage: real)

  /** The summary entries computed before `analyses[0]` is inspected. */
  function SummaryTotals(analyses: seq<Analysis>): (t: Totals)
    ensures t.totalBriefs == |analyses|
    ensures analyses == [] ==>
      && t.totalMajorIssues == 0.0 && t.totalMinorIssues == 0.0
      && t.totalDisagreements == 0.0 && t.totalActionItems == 0.0
      && t.avgMajorIssues == 0.0 && t.avgMinorIssues == 0.0 && t.avgActionItems == 0.0
      && t.avgEvidenceCoverage == 0.0 && t.minEvidenceCoverage == 0.0 && t.maxEvidenceCoverage == 0.0
    ensures analyses != [] ==>
      && t.avgMajorIssues * (|analyses| as real) == t.totalMajorIssues
      && t.avgMinorIssues * (|analyses| as real) == t.totalMinorIssues
      && t.avgActionItems * (|analyses| as real) == t.totalActionItems
  {
    var coverage := CoverageScores(analyses);
    Totals(
      |analyses|,
      Sum(Counts(analyses, MajorIssues)),
      Sum(Counts(analyses, MinorIssues)),
      Sum(Counts(analyses, Disagreements)),
      Sum(Counts(analyses, ActionItems)),
      Mean(Counts(analyses, MajorIssues)),
      Mean(Counts(analyses, MinorIssues)),
      Mean(Counts(analyses, ActionItems)),
      Mean(coverage),
      if coverage == [] then 0.0 else Min(coverage),
      if coverage == [] then 0.0 else Max(coverage))
  }

  /** Adding a value at the end of a list adds it to the sum. */
  lemma {:induction false} SumAppend(xs: seq<real>, x: real)
    ensures Sum(xs + [x]) == Sum(xs) + x
  {
    if xs != [] {
      assert (xs + [x])[1..] == xs[1..] + [x];
      SumAppend(xs[1..], x);
    }
  }

  /** One more analysis adds its own count to the field's total. */
  lemma CountsAppend(analyses: seq<Analysis>, a: Analysis, field: Field)
    ensures Sum(Counts(analyses + [a], field)) == Sum(Counts(analyses, field)) + CountOf(a, field) as real
  {
    assert Counts(analyses + [a], field) == Counts(analyses, field) + [CountOf(a, field) as real];
    SumAppend(Counts(analyses, field), CountOf(a, field) as real);
  }

  /**
   * The four totals are sums of the per-brief counts: starting from 0.0
   * for no briefs, each further brief adds its own counts.
   */
  lemma SummaryTotalsAppend(analyses: seq<Analysis>, a: Analysis)
    ensures var before, after := SummaryTotals(analyses), SummaryTotals(analyses + [a]);
      && after.totalMajorIssues == before.totalMajorIssues + a.numMajorIssues as real
      && after.totalMinorIssues == before.totalMinorIssues + a.numMinorIssues as real
      && after.totalDisagreements == before.totalDisagreements + a.numDisagreements as real
      && after.totalActionItems == before.totalActionItems + a.numActionItems as real
  {
    CountsAppend(analyses, a, MajorIssues);
    CountsAppend(analyses, a, MinorIssues);
    CountsAppend(analyses, a, Disagreements);
    CountsAppend(analyses, a, ActionItems);
  }

  /** A sum is at least its count times the least element. */
  lemma {:induction false} SumAtLeast(xs: seq<real>)
    requires xs != []
    ensures (|xs| as real) * Min(xs) <= Sum(xs)
  {
    if |xs| > 1 {
      var rest := xs[1..];
      SumAtLeast(rest);
      var r, lo := |rest| as real, Min(xs);
      assert Sum(xs) == xs[0] + Sum(rest);
      assert lo <= xs[0] && lo <= Min(rest);
      ScaleStep(r, lo, Min(rest));
      assert |xs| as real == r + 1.0;
    }
  }

  /** A sum is at most its count times the greatest element. */
  lemma {:induction false} SumAtMost(xs: seq<real>)
    requires xs != []
    ensures Sum(xs) <= (|xs| as real) * Max(xs)
  {
    if |xs| > 1 {
      var rest := xs[1..];
      SumAtMost(rest);
      var r, hi := |rest| as real, Max(xs);
      assert Sum(xs) == xs[0] + Sum(rest);
      assert xs[0] <= hi && Max(rest) <= hi;
      ScaleStep(r, Max(rest), hi);
      assert |xs| as real == r + 1.0;
    }
  }

  /** Scaling by a non-negative count keeps the order, and one more copy adds one summand. */
  lemma ScaleStep(r: real, a: real, b: real)
    requires r >= 0.0 && a <= b
    ensures r * a <= r * b
    ensures (r + 1.0) * a == a + r * a && (r + 1.0) * b == b + r * b
  {
  }

  /** Over a non-empty list of briefs the mean coverage lies between the least and the greatest. */
  lemma CoverageMeanBetween(analyses: seq<Analysis>)
    requires analyses != []
    ensures var t := SummaryTotals(analyses);
      t.minEvidenceCoverage <= t.avgEvidenceCoverage <= t.maxEvidenceCoverage
  {
    var xs := CoverageScores(analyses);
    SumAtLeast(xs);
    SumAtMost(xs);
    QuotientBetween(Sum(xs), |xs| as real, Min(xs), Max(xs));
  }

  /** The least and greatest coverage are coverages, so they stay within [0, 100] too. */
  lemma {:induction false} MinMaxWithin(xs: seq<real>)
    requires xs != [] && forall k :: 0 <= k < |xs| ==> 0.0 <= xs[k] <= 100.0
    ensures 0.0 <= Min(xs) <= 100.0 && 0.0 <= Max(xs) <= 100.0
  {
    if |xs| > 1 {
      MinMaxWithin(xs[1..]);
    }
  }

  /** `sum(x for x in xs[:n])` over Python numbers: booleans add as 0 and 1, anything else raises. */
  function SumValues(xs: seq<Value>, n: nat): (r: Outcome<real>)
    requires n <= |xs|
    ensures r.Success? <==> forall k :: 0 <= k < n ==> xs[k].Num? || xs[k].Bool?
  {
    if n == 0 then Success(0.0)
    else
      var before :- SumValues(xs, n - 1);
      var x :- AsNumber(xs[n - 1]);
      Success(before + x)
  }

  /** `sum(1 for a in analyses[:n] if a.get('validation_passed'))`. */
  function PassedCount(analyses: seq<Analysis>, n: nat): (c: nat)
    requires n <= |analyses|
    ensures c <= n
  {
    if n == 0 then 0
    else PassedCount(analyses, n - 1) + if Passed(analyses[n - 1]) then 1 else 0
  }

  predicate Passed(a: Analysis) {
    a.validation.Some? && Truthy(a.validation.value.passed)
  }

  /** `a.get('validation_confidence', 0)`. */
  function ValidationConfidence(a: Analysis): Value {
    if a.validation.Some? then a.validation.value.confidence else IntValue(0)
  }

  function Confidences(analyses: seq<Analysis>): (xs: seq<Value>)
    ensures |xs| == |analyses|
  {
    seq(|analyses|, k requires 0 <= k < |analyses| => ValidationConfidence(analyses[k]))
  }

  datatype ValidationStats = ValidationStats(passRate: real, avgConfidence: real)

  /** The validation entries, computed when the first analysis carries `validation_passed`. */
  function ValidationSummary(analyses: seq<Analysis>): (r: Outcome<ValidationStats>)
    requires analyses != []
    ensures r.Success? <==> SumValues(Confidences(analyses), |analyses|).Success?
    ensures r.Success? ==>
      r.value.avgConfidence * (|analyses| as real) == SumValues(Confidences(analyses), |analyses|).value
    ensures r.Success? ==>
      && 0.0 <= r.value.passRate <= 100.0
      && r.value.passRate * (|analyses| as real) == 100.0 * (PassedCount(analyses, |analyses|) as real)
  {
    var n := |analyses|;
    var passed := PassedCount(analyses, n);
    var confidences := Confidences(analyses);
    var total :- SumValues(confidences, n);
    Success(ValidationStats(Percent(passed, n), total / (n as real)))
  }

  /** `100 * part / whole` for a part of a non-empty whole. */
  function Percent(part: nat, whole: nat): (r: real)
    requires 0 < whole && part <= whole
    ensures 0.0 <= r <= 100.0
    ensures r * (whole as real) == 100.0 * (part as real)
  {
    QuotientBetween(100.0 * (part as real), whole as real, 0.0, 100.0);
    100.0 * (part as real) / (whole as real)
  }

  // ----------------------------------------------------------- the Counter

  /** `Counter(keys[:n])`, each key filed under its hash key. */
  function Tally(keys: seq<Value>, n: nat): (r: Outcome<map<Value, nat>>)
    requires n <= |keys|
    ensures r.Success? <==> forall k :: 0 <= k < n ==> HashKey(keys[k]).Success?
  {
    if n == 0 then Success(map[])
    else
      var counter :- Tally(keys, n - 1);
      var key :- HashKey(keys[n - 1]);
      Success(counter[key := (if key in counter then counter[key] else 0) + 1])
  }

  /** The sum of a counter's counts over the keys `ks`. */
  ghost function SumOver<K>(m: map<K, nat>, ks: set<K>): nat
    requires ks <= m.Keys
    decreases ks
  {
    if ks == {} then 0
    else
      var k :| k in ks;
      m[k] + SumOver(m, ks - {k})
  }

  /** The sum of a counter's counts. */
  ghost function Total<K>(m: map<K, nat>): nat {
    SumOver(m, m.Keys)
  }

  /** The sum does not depend on which key is taken out first. */
  lemma {:induction false} SumOverWithout<K>(m: map<K, nat>, ks: set<K>, k: K)
    requires ks <= m.Keys && k in ks
    ensures SumOver(m, ks) == m[k] + SumOver(m, ks - {k})
    decreases ks
  {
    var j :| j in ks && SumOver(m, ks) == m[j] + SumOver(m, ks - {j});
    if j != k {
      SumOverWithout(m, ks - {j}, k);
      SumOverWithout(m, ks - {k}, j);
      assert ks - {j} - {k} == ks - {k} - {j};
    }
  }

  /** Two counters that agree on `ks` have the same sum over `ks`. */
  lemma {:induction false} SumOverAgree<K>(m: map<K, nat>, n: map<K, nat>, ks: set<K>)
    requires ks <= m.Keys && ks <= n.Keys
    requires forall k :: k in ks ==> m[k] == n[k]
    ensures SumOver(m, ks) == SumOver(n, ks)
    decreases ks
  {
    if ks != {} {
      var j :| j in ks && SumOver(m, ks) == m[j] + SumOver(m, ks - {j});
      SumOverWithout(n, ks, j);
      SumOverAgree(m, n, ks - {j});
    }
  }

  /** Counting one more key adds one to the total. */
  lemma TotalIncrement<K>(m: map<K, nat>, k: K)
    ensures Total(m[k := (if k in m then m[k] else 0) + 1]) == Total(m) + 1
  {
    var m' := m[k := (if k in m then m[k] else 0) + 1];
    SumOverWithout(m', m'.Keys, k);
    SumOverAgree(m, m', m.Keys - {k});
    if k in m {
      SumOverWithout(m, m.Keys, k);
      assert m'.Keys - {k} == m.Keys - {k};
    } else {
      assert m'.Keys - {k} == m.Keys - {k} == m.Keys;
    }
  }

  /** The counts of `confidence_distribution` add up to the number of briefs counted. */
  lemma {:induction false} TallyTotal(keys: seq<Value>, n: nat)
    requires n <= |keys| && Tally(keys, n).Success?
    ensures Total(Tally(keys, n).value) == n
  {
    if n != 0 {
      TallyTotal(keys, n - 1);
      TotalIncrement(Tally(keys, n - 1).value, HashKey(keys[n - 1]).value);
    }
  }

  /** How many of the first `n` keys file under `key`. */
  function Occurrences(keys: seq<Value>, n: nat, key: Value): nat
    requires n <= |keys|
  {
    if n == 0 then 0
    else Occurrences(keys, n - 1, key) + if HashKey(keys[n - 1]) == Success(key) then 1 else 0
  }

  /** Each entry of the counter is the number of times its key occurs. */
  lemma {:induction false} TallyCounts(keys: seq<Value>, n: nat, key: Value)
    requires n <= |keys| && Tally(keys, n).Success?
    ensures key in Tally(keys, n).value <==> Occurrences(keys, n, key) > 0
    ensures key in Tally(keys, n).value ==> Tally(keys, n).value[key] == Occurrences(keys, n, key)
  {
    if n != 0 {
      TallyCounts(keys, n - 1, key);
    }
  }

  // ---------------------------------------------------------- the summary

  datatype Summary = Summary(
    totals: Totals,
    validation: Option<ValidationStats>,
    confidenceDistribution: map<Value, nat>)

  /**
   * `generate_summary`: the analyses, the totals, the validation entries
   * when the first analysis has them, and the confidence counter. An
   * empty list of briefs fails at `analyses[0]`.
   */
  function GenerateSummary(briefs: seq<Value>): (r: Outcome<(Summary, seq<Analysis>)>)
    ensures briefs == [] ==> r == Failure(IndexError)
    ensures r.Success? ==> |r.value.1| == |briefs| && r.value.0.totals.totalBriefs == |briefs|
    ensures r.Success? ==> (r.value.0.validation.Some? <==> r.value.1[0].validation.Some?)
  {
    var analyses :- Analyses(briefs, |briefs|);
    var totals := SummaryTotals(analyses);
    if analyses == [] then Failure(IndexError)
    else
      var validation :- if analyses[0].validation.Some? then
          var v :- ValidationSummary(analyses); Success(Some(v))
        else Success(None);
      var confidences := seq(|analyses|, k requires 0 <= k < |analyses| => analyses[k].consensusConfidence);
      var distribution :- Tally(confidences, |confidences|);
      Success((Summary(totals, validation, distribution), analyses))
  }

  /** The confidence distribution counts every brief once. */
  lemma DistributionCountsEveryBrief(briefs: seq<Value>)
    requires GenerateSummary(briefs).Success?
    ensures Total(GenerateSummary(briefs).value.0.confidenceDistribution) == |briefs|
  {
    var analyses := Analyses(briefs, |briefs|).value;
    var confidences := seq(|analyses|, k requires 0 <= k < |analyses| => analyses[k].consensusConfidence);
    TallyTotal(confidences, |confidences|);
  }

  /** Every brief's coverage, and so the summary's range, lies within [0, 100]. */
  lemma SummaryCoverageWithin(briefs: seq<Value>)
    requires GenerateSummary(briefs).Success?
    ensures var t := GenerateSummary(briefs).value.0.totals;
      0.0 <= t.minEvidenceCoverage <= t.avgEvidenceCoverage <= t.maxEvidenceCoverage <= 100.0
  {
    var analyses := Analyses(briefs, |briefs|).value;
    CoverageMeanBetween(analyses);
    MinMaxWithin(CoverageScores(analyses));
  }
}
