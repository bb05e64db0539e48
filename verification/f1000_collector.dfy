/**
 * The F1000Research collector: article discovery with its cap and
 * fallback, the bookkeeping loop of `collect_manuscripts`, and the rules
 * that turn what BeautifulSoup finds on an article page into a manuscript
 * (keywords, authors, reviewer names, recommendations, the kept reviews
 * and the decision). The page itself is given as the texts and attribute
 * values those rules read.
 */
module F1000Collector {
  import opened Wrappers
  import opened Text
  import opened Schema
  import opened Collectors

  const BaseUrl := "https://f1000research.com"

  /** The article identifiers used when discovery finds fewer than five. */
  const FallbackIds := ["1-1655", "2-150", "3-200", "4-100", "5-50"]

  /** One discovered article: `{'id': ..., 'url': ...}`. */
  datatype ArticleInfo = ArticleInfo(id: string, url: string)

  // -------------------------------------------------------------- discovery

  /**
   * The entry a link contributes: the `[\d\-]+` run after `/articles/` in
   * its `href`, and the address made absolute when the `href` is a path.
   */
  function LinkInfo(href: string): (r: Option<ArticleInfo>)
    ensures r.Some? ==> r.value.id != [] && forall i :: 0 <= i < |r.value.id| ==> RunChar(r.value.id[i], true)
    ensures r.None? <==> SearchRun(href, "/articles/", true).None?
  {
    match SearchRun(href, "/articles/", true)
    case None => None
    case Some(id) => Some(ArticleInfo(id, if StartsWith(href, "/") then BaseUrl + href else href))
  }

  /** The entry of each link, in page order. */
  function LinkInfos(hrefs: seq<string>): (r: seq<Option<ArticleInfo>>)
    ensures |r| == |hrefs| && forall k :: 0 <= k < |hrefs| ==> r[k] == LinkInfo(hrefs[k])
  {
    seq(|hrefs|, k requires 0 <= k < |hrefs| => LinkInfo(hrefs[k]))
  }

  /** `found` with the entry of one link, if it has one. */
  function Held(found: seq<ArticleInfo>, info: Option<ArticleInfo>): seq<ArticleInfo> {
    if info.Some? then found + [info.value] else found
  }

  /**
   * The link loop from position `i` on, holding `found`: after each link
   * it stops as soon as `limit` entries are held.
   */
  function Scan(infos: seq<Option<ArticleInfo>>, i: nat, limit: int, found: seq<ArticleInfo>): seq<ArticleInfo>
    requires i <= |infos|
    decreases |infos| - i
  {
    if i == |infos| then found
    else
      var held := Held(found, infos[i]);
      if |held| >= limit then held else Scan(infos, i + 1, limit, held)
  }

  function FallbackInfos(): (r: seq<ArticleInfo>)
    ensures |r| == 5
  {
    seq(5, k requires 0 <= k < 5 => ArticleInfo(FallbackIds[k], BaseUrl + "/articles/" + FallbackIds[k]))
  }

  /** The fallback entries are appended, without a duplicate check, when fewer than five were found. */
  function WithFallback(found: seq<ArticleInfo>): seq<ArticleInfo> {
    if |found| < 5 then found + FallbackInfos() else found
  }

  /** What discovery holds before the fallback; `None` is a listing page that could not be fetched. */
  function Found(numArticles: int, page: Option<seq<string>>): seq<ArticleInfo> {
    if page.Some? then Scan(LinkInfos(page.value), 0, 2 * numArticles, []) else []
  }

  /** `_discover_articles`, given the `href`s of the listing page's article links. */
  method DiscoverArticles(numArticles: int, page: Option<seq<string>>) returns (articleIds: seq<ArticleInfo>)
    ensures articleIds == WithFallback(Found(numArticles, page))
  {
    articleIds := [];
    if page.Some? {
      articleIds := ScanLinks(page.value, 2 * numArticles);
    }
    if |articleIds| < 5 {
      articleIds := AppendFallback(articleIds);
    }
  }

  /** The link loop of `_discover_articles`, which stops once `limit` entries are held. */
  method ScanLinks(links: seq<string>, limit: int) returns (articleIds: seq<ArticleInfo>)
    ensures articleIds == Scan(LinkInfos(links), 0, limit, [])
  {
    articleIds := [];
    ghost var infos := LinkInfos(links);
    ghost var target := Scan(infos, 0, limit, []);
    var i := 0;
    while i < |links|
      invariant 0 <= i <= |links|
      invariant Scan(infos, i, limit, articleIds) == target
    {
      var info := LinkInfo(links[i]);
      ScanStep(infos, i, limit, articleIds);
      if info.Some? {
        articleIds := articleIds + [info.value];
      }
      if |articleIds| >= limit {
        break;
      }
      i := i + 1;
    }
  }

  /** One link of the loop: hold its entry, then stop or go on. */
  lemma ScanStep(infos: seq<Option<ArticleInfo>>, i: nat, limit: int, found: seq<ArticleInfo>)
    requires i < |infos|
    ensures var held := Held(found, infos[i]);
      Scan(infos, i, limit, found) == if |held| >= limit then held else Scan(infos, i + 1, limit, held)
  {
  }

  /** The fallback loop of `_discover_articles`. */
  method AppendFallback(found: seq<ArticleInfo>) returns (articleIds: seq<ArticleInfo>)
    ensures articleIds == found + FallbackInfos()
  {
    articleIds := found;
    var k := 0;
    while k < |FallbackIds|
      invariant 0 <= k <= |FallbackIds|
      invariant articleIds == found + FallbackInfos()[..k]
    {
      var fid := FallbackIds[k];
      articleIds := articleIds + [ArticleInfo(fid, BaseUrl + "/articles/" + fid)];
      k := k + 1;
    }
  }

  /** The loop keeps what it held and never holds more than the cap (one entry when the cap is not positive). */
  lemma {:induction false} ScanBound(infos: seq<Option<ArticleInfo>>, i: nat, limit: int, found: seq<ArticleInfo>)
    requires i <= |infos|
    requires |found| < limit || found == []
    ensures |found| <= |Scan(infos, i, limit, found)| <= if limit >= 1 then limit else 1
    ensures found == Scan(infos, i, limit, found)[..|found|]
    decreases |infos| - i
  {
    if i < |infos| {
      var held := Held(found, infos[i]);
      assert found == held[..|found|];
      if |held| < limit {
        ScanBound(infos, i + 1, limit, held);
      }
    }
  }

  /** The entries the links from position `i` up to `j` carry, in link order. */
  function Entries(infos: seq<Option<ArticleInfo>>, i: nat, j: nat): seq<ArticleInfo>
    requires i <= j <= |infos|
    decreases j - i
  {
    if i == j then [] else (if infos[i].Some? then [infos[i].value] else []) + Entries(infos, i + 1, j)
  }

  /** An entry is among those of a stretch of links exactly when one of those links carries it. */
  lemma {:induction false} EntriesContents(infos: seq<Option<ArticleInfo>>, i: nat, j: nat)
    requires i <= j <= |infos|
    ensures forall x :: x in Entries(infos, i, j) <==> exists k :: i <= k < j && infos[k] == Some(x)
    decreases j - i
  {
    if i < j {
      EntriesContents(infos, i + 1, j);
    }
  }

  /** The position after the last link the loop looks at before it stops. */
  function ScanEnd(infos: seq<Option<ArticleInfo>>, i: nat, limit: int, found: seq<ArticleInfo>): (j: nat)
    requires i <= |infos|
    ensures i <= j <= |infos|
    decreases |infos| - i
  {
    if i == |infos| then i
    else
      var held := Held(found, infos[i]);
      if |held| >= limit then i + 1 else ScanEnd(infos, i + 1, limit, held)
  }

  /**
   * The loop holds what it held followed by the entries of the links it
   * looks at, in order, and it stops before the last link only once it
   * holds `limit` entries.
   */
  lemma {:induction false} ScanEntries(infos: seq<Option<ArticleInfo>>, i: nat, limit: int, found: seq<ArticleInfo>)
    requires i <= |infos|
    ensures Scan(infos, i, limit, found) == found + Entries(infos, i, ScanEnd(infos, i, limit, found))
    ensures ScanEnd(infos, i, limit, found) < |infos| ==> |Scan(infos, i, limit, found)| >= limit
    decreases |infos| - i
  {
    if i < |infos| {
      var head := if infos[i].Some? then [infos[i].value] else [];
      var held := Held(found, infos[i]);
      assert held == found + head;
      if |held| >= limit {
        assert Entries(infos, i, i + 1) == head + Entries(infos, i + 1, i + 1);
      } else {
        ScanEntries(infos, i + 1, limit, held);
        var j := ScanEnd(infos, i + 1, limit, held);
        assert Entries(infos, i, j) == head + Entries(infos, i + 1, j);
        assert held + Entries(infos, i + 1, j) == found + Entries(infos, i, j);
      }
    }
  }

  /** Every entry the loop holds came from a link: a non-empty run of digits and dashes. */
  lemma {:induction false} ScanIds(hrefs: seq<string>, i: nat, limit: int, found: seq<ArticleInfo>, k: nat)
    requires i <= |hrefs|
    requires forall j :: 0 <= j < |found| ==> found[j].id != []
    requires k < |Scan(LinkInfos(hrefs), i, limit, found)|
    ensures Scan(LinkInfos(hrefs), i, limit, found)[k].id != []
    decreases |hrefs| - i
  {
    if i < |hrefs| {
      var held := Held(found, LinkInfo(hrefs[i]));
      if |held| < limit {
        ScanIds(hrefs, i + 1, limit, held, k);
      }
    }
  }

  /**
   * Discovery yields at least five entries, begins with the ones found on
   * the page (at most twice the requested number, or one), and ends with
   * the five fallback entries exactly when fewer than five were found.
   */
  lemma DiscoveryShape(numArticles: int, page: Option<seq<string>>)
    ensures var found := Found(numArticles, page);
      var ids := WithFallback(found);
      && |ids| >= 5
      && |found| <= (if 2 * numArticles >= 1 then 2 * numArticles else 1)
      && ids[..|found|] == found
      && (|found| < 5 <==> ids[|found|..] == FallbackInfos())
  {
    if page.Some? {
      ScanBound(LinkInfos(page.value), 0, 2 * numArticles, []);
    }
  }

  /**
   * A fetched page's found entries are its links' entries in link order,
   * up to the link where the loop stopped, which is before the last one
   * only once `2 * num_articles` are held; so every found entry is a
   * link's entry, and with fewer found every link's entry is found.
   */
  lemma DiscoveryContents(numArticles: int, links: seq<string>)
    ensures var found := Found(numArticles, Some(links));
      exists j :: (0 <= j <= |links| && found == Entries(LinkInfos(links), 0, j)
        && (j < |links| ==> |found| >= 2 * numArticles))
    ensures var found := Found(numArticles, Some(links));
      forall x :: x in found ==> exists k :: 0 <= k < |links| && LinkInfo(links[k]) == Some(x)
    ensures var found := Found(numArticles, Some(links));
      |found| < 2 * numArticles ==> found == Entries(LinkInfos(links), 0, |links|)
  {
    var infos := LinkInfos(links);
    var j := ScanEnd(infos, 0, 2 * numArticles, []);
    ScanEntries(infos, 0, 2 * numArticles, []);
    assert Found(numArticles, Some(links)) == Entries(infos, 0, j);
    EntriesContents(infos, 0, j);
  }

  // ----------------------------------------------------- collect_manuscripts

  /** `str(article_info)`: the dict's `repr`. */
  function InfoRepr(info: ArticleInfo): string {
    "{'id': '" + info.id + "', 'url': '" + info.url + "'}"
  }

  /** The attempts of the loop: a failed collection is logged by its id, an exception by the whole entry. */
  function Attempts(batch: seq<ArticleInfo>, collect: ArticleInfo -> Option<Manuscript>): (r: seq<Attempt>)
    ensures |r| == |batch|
    ensures forall k :: 0 <= k < |batch| ==> r[k] == Attempt(batch[k].id, InfoRepr(batch[k]), collect(batch[k]))
  {
    seq(|batch|, k requires 0 <= k < |batch| => Attempt(batch[k].id, InfoRepr(batch[k]), collect(batch[k])))
  }

  /**
   * What one F1000Research run reads from outside: the `href`s of the
   * listing page (`None` when the fetch raised), `collect_single_manuscript`
   * for each entry, and the clock readings.
   */
  datatype Site = Site(
    page: Option<seq<string>>,
    collect: ArticleInfo -> Option<Manuscript>,
    collectionId: string,
    startTime: string,
    endTime: string)

  /** The entries the loop processes: `article_ids[:num_manuscripts]` of what discovery returns. */
  function Batch(numManuscripts: int, site: Site): seq<ArticleInfo> {
    PyTake(WithFallback(Found(numManuscripts, site.page)), numManuscripts)
  }

  /** What `collect_manuscripts` returns: the collected manuscripts and the finished metadata. */
  function Collection(numManuscripts: int, subjectAreas: Option<seq<string>>, startDate: Option<string>, site: Site, delay: real)
    : (seq<Manuscript>, CollectionMetadata)
  {
    var batch := Batch(numManuscripts, site);
    var t := Run(Attempts(batch, site.collect), |batch|, delay);
    (t.manuscripts, Finished(t, site.collectionId, F1000Research, site.startTime, site.endTime, RunConfig(numManuscripts, subjectAreas, startDate)))
  }

  /**
   * `collect_manuscripts`: discovers entries for `num_manuscripts`, then
   * processes the first `num_manuscripts` of them.
   */
  method CollectManuscripts(numManuscripts: int, subjectAreas: Option<seq<string>>, startDate: Option<string>, site: Site, delay: real)
    returns (manuscripts: seq<Manuscript>, metadata: CollectionMetadata)
    ensures (manuscripts, metadata) == Collection(numManuscripts, subjectAreas, startDate, site, delay)
  {
    var articleIds := DiscoverArticles(numManuscripts, site.page);
    var batch := PyTake(articleIds, numManuscripts);
    ghost var attempts := Attempts(batch, site.collect);
    manuscripts := [];
    var attempted, successful, failed := 0, 0, 0;
    var errors: seq<ErrorEntry> := [];
    var i := 0;
    while i < |batch|
      invariant 0 <= i <= |batch|
      invariant Run(attempts, i, delay) == Tally(manuscripts, attempted, successful, failed, errors)
    {
      var info := batch[i];
      attempted := attempted + 1;
      var manuscript := site.collect(info);
      if manuscript.Some? {
        manuscripts := manuscripts + [manuscript.value];
        successful := successful + 1;
      } else {
        failed := failed + 1;
        errors := errors + [ErrorEntry(info.id, FailedToCollect)];
      }
      if delay < 0.0 {
        // `time.sleep` raised: the handler counts the article once more as failed
        failed := failed + 1;
        errors := errors + [ErrorEntry(InfoRepr(info), SleepError)];
      }
      i := i + 1;
    }
    metadata := CollectionMetadata(
      site.collectionId, F1000Research, site.startTime, Some(site.endTime), attempted, successful, failed, errors,
      RunConfig(numManuscripts, subjectAreas, startDate));
  }

  /**
   * A run attempts exactly the entries `[:num_manuscripts]` selects from
   * discovery: never more than a non-negative `num_manuscripts`, and at
   * least five when it asks for that many. Every failure is paired with
   * one error entry; with a usable delay each attempt counts once as a
   * success or a failure, and every error names a processed entry's id.
   */
  lemma CollectionCounts(numManuscripts: int, subjectAreas: Option<seq<string>>, startDate: Option<string>, site: Site, delay: real)
    ensures var c := Collection(numManuscripts, subjectAreas, startDate, site, delay);
      var md := c.1;
      var batch := Batch(numManuscripts, site);
      && md.numAttempted == |batch|
      && (numManuscripts >= 0 ==> md.numAttempted <= numManuscripts)
      && (numManuscripts >= 0 ==> md.numAttempted >= if numManuscripts < 5 then numManuscripts else 5)
      && md.numFailed == |md.errors|
      && md.numSuccessful == |c.0|
      && (delay >= 0.0 ==> md.numSuccessful + md.numFailed == md.numAttempted)
      && (delay >= 0.0 ==> forall k :: 0 <= k < |md.errors| ==> exists j :: 0 <= j < |batch| && md.errors[k].articleId == batch[j].id)
  {
    var batch := Batch(numManuscripts, site);
    var attempts := Attempts(batch, site.collect);
    DiscoveryShape(numManuscripts, site.page);
    RunBookkeeping(attempts, |batch|, delay);
    if delay >= 0.0 {
      forall k | 0 <= k < |Run(attempts, |batch|, delay).errors|
        ensures exists j :: 0 <= j < |batch| && Run(attempts, |batch|, delay).errors[k].articleId == batch[j].id
      {
        RunErrors(attempts, |batch|, delay, k);
      }
    }
  }

  // --------------------------------------------------------------- keywords

  /** A keyword piece is kept only when something is left after stripping it. */
  predicate NonBlank(part: string) {
    Strip(part) != []
  }

  /** `[k.strip() for k in parts[:n] if k.strip()]`. */
  function StrippedNonEmpty(parts: seq<string>, n: nat): (r: seq<string>)
    requires n <= |parts|
    ensures |r| <= n
  {
    if n == 0 then []
    else StrippedNonEmpty(parts, n - 1) + if NonBlank(parts[n - 1]) then [Strip(parts[n - 1])] else []
  }

  /**
   * The keyword filter is the section loop's shape with the stripped piece
   * as the item: every non-blank piece is kept, stripped, in order.
   */
  lemma {:induction false} StrippedNonEmptyKept(parts: seq<string>, n: nat)
    requires n <= |parts|
    ensures StrippedNonEmpty(parts, n) == KeptMap(parts, NonBlank, (p: nat, part: string) => Strip(part), n)
    ensures forall k :: 0 <= k < n && NonBlank(parts[k]) ==> Strip(parts[k]) in StrippedNonEmpty(parts, n)
  {
    if n != 0 {
      StrippedNonEmptyKept(parts, n - 1);
    }
    KeptMapComplete(parts, NonBlank, (p: nat, part: string) => Strip(part), n);
  }

  /**
   * `_extract_keywords`, given the `content` of the `citation_keywords`
   * meta tag (`None` when there is no such tag; an absent attribute reads
   * as the empty string).
   */
  function Keywords(content: Option<string>): seq<string> {
    if content.None? then [] else
    var parts := Split(content.value, ',');
    StrippedNonEmpty(parts, |parts|)
  }

  lemma {:induction false} StrippedNonEmptyShape(parts: seq<string>, n: nat, k: nat)
    requires n <= |parts|
    requires forall j :: 0 <= j < |parts| ==> ',' !in parts[j]
    requires k < |StrippedNonEmpty(parts, n)|
    ensures var w := StrippedNonEmpty(parts, n)[k];
      w != [] && ',' !in w && !IsSpace(w[0]) && !IsSpace(w[|w| - 1])
  {
    var prev := StrippedNonEmpty(parts, n - 1);
    if k < |prev| {
      StrippedNonEmptyShape(parts, n - 1, k);
    } else {
      StripEnds(parts[n - 1]);
      StripWithin(parts[n - 1]);
    }
  }

  /**
   * Keywords are non-empty, stripped and comma-free, there are never
   * more of them than comma-separated pieces, and no non-blank piece is
   * missed.
   */
  lemma KeywordsShape(content: Option<string>)
    ensures content.None? ==> Keywords(content) == []
    ensures content.Some? ==> |Keywords(content)| <= Occurrences(content.value, ',') + 1
    ensures forall k :: 0 <= k < |Keywords(content)| ==>
      var w := Keywords(content)[k]; w != [] && ',' !in w && !IsSpace(w[0]) && !IsSpace(w[|w| - 1])
    ensures content.Some? ==> var parts := Split(content.value, ',');
      forall k :: 0 <= k < |parts| && NonBlank(parts[k]) ==> Strip(parts[k]) in Keywords(content)
  {
    if content.Some? {
      var parts := Split(content.value, ',');
      StrippedNonEmptyKept(parts, |parts|);
      forall k | 0 <= k < |Keywords(content)|
        ensures var w := Keywords(content)[k]; w != [] && ',' !in w && !IsSpace(w[0]) && !IsSpace(w[|w| - 1])
      {
        StrippedNonEmptyShape(parts, |parts|, k);
      }
    }
  }

  // ---------------------------------------------------------------- authors

  /** A `citation_author` tag counts only when its `content` is present and non-empty. */
  predicate Filled(c: Option<string>) {
    c.Some? && c.value != []
  }

  /** `[c for c in contents if c]`: the non-empty `content` values of the `citation_author` tags. */
  function Present(contents: seq<Option<string>>, n: nat): (r: seq<string>)
    requires n <= |contents|
    ensures |r| <= n
    ensures forall k :: 0 <= k < |r| ==> r[k] != []
  {
    if n == 0 then []
    else Present(contents, n - 1) + if Filled(contents[n - 1]) then [contents[n - 1].value] else []
  }

  /** The meta filter is the section loop's shape with the content as the item: kept in page order. */
  lemma {:induction false} PresentKept(contents: seq<Option<string>>, n: nat)
    requires n <= |contents|
    ensures Present(contents, n) == KeptMap(contents, Filled, (p: nat, c: Option<string>) => if c.Some? then c.value else [], n)
  {
    if n != 0 {
      PresentKept(contents, n - 1);
    }
  }

  /** Each name is kept as often as a tag carries it among the first `n`, and the empty name never. */
  lemma {:induction false} PresentKeepsExactly(contents: seq<Option<string>>, n: nat, x: string)
    requires n <= |contents|
    ensures multiset(Present(contents, n))[x] == if x != [] then multiset(contents[..n])[Some(x)] else 0
  {
    if n != 0 {
      PresentKeepsExactly(contents, n - 1, x);
      assert contents[..n] == contents[..n - 1] + [contents[n - 1]];
    }
  }

  /**
   * `_extract_authors`: the `citation_author` meta values, or, when there
   * are none, the first ten author tags' texts that are longer than two
   * characters (cap first, then filter).
   */
  function Authors(metaContents: seq<Option<string>>, tagTexts: seq<string>): seq<string> {
    var fromMeta := Present(metaContents, |metaContents|);
    if fromMeta != [] then fromMeta
    else
      var first := PyTake(tagTexts, 10);
      LongNames(first, |first|)
  }

  /**
   * Authors are never empty names. When some `citation_author` tag is
   * filled, the authors are exactly the filled values, each as often as
   * tags carry it; otherwise at most ten, each longer than two
   * characters, and every such name among the first ten tags.
   */
  lemma AuthorsShape(metaContents: seq<Option<string>>, tagTexts: seq<string>)
    ensures var r := Authors(metaContents, tagTexts); forall k :: 0 <= k < |r| ==> r[k] != []
    ensures (exists k :: 0 <= k < |metaContents| && Filled(metaContents[k])) ==>
      forall x :: x != [] ==> multiset(Authors(metaContents, tagTexts))[x] == multiset(metaContents)[Some(x)]
    ensures (forall k :: 0 <= k < |metaContents| ==> !Filled(metaContents[k])) ==>
      var r := Authors(metaContents, tagTexts);
      && |r| <= 10
      && (forall k :: 0 <= k < |r| ==> LongName(r[k]))
      && forall k :: 0 <= k < |tagTexts| && k < 10 && LongName(tagTexts[k]) ==> tagTexts[k] in r
  {
    var n := |metaContents|;
    PresentEmpty(metaContents, n);
    if exists k :: 0 <= k < n && Filled(metaContents[k]) {
      assert metaContents[..n] == metaContents;
      forall x | x != []
        ensures multiset(Authors(metaContents, tagTexts))[x] == multiset(metaContents)[Some(x)]
      {
        PresentKeepsExactly(metaContents, n, x);
      }
    } else {
      FirstTenLongNames(tagTexts);
    }
  }

  /** No name is kept exactly when no tag among the first `n` is filled. */
  lemma {:induction false} PresentEmpty(contents: seq<Option<string>>, n: nat)
    requires n <= |contents|
    ensures Present(contents, n) == [] <==> forall k :: 0 <= k < n ==> !Filled(contents[k])
  {
    if n != 0 {
      PresentEmpty(contents, n - 1);
    }
  }

  /** Every long name among the first ten tags is kept. */
  lemma FirstTenLongNames(tagTexts: seq<string>)
    ensures var first := PyTake(tagTexts, 10);
      forall k :: 0 <= k < |tagTexts| && k < 10 && LongName(tagTexts[k]) ==> tagTexts[k] in LongNames(first, |first|)
  {
    var first := PyTake(tagTexts, 10);
    LongNamesKept(first, |first|);
    KeptMapComplete(first, LongName, (p: nat, name: string) => name, |first|);
    forall k | 0 <= k < |tagTexts| && k < 10 && LongName(tagTexts[k])
      ensures tagTexts[k] in LongNames(first, |first|)
    {
      assert first[k] == tagTexts[k];
    }
  }

  /** `_extract_authors`. */
  method ExtractAuthors(metaContents: seq<Option<string>>, tagTexts: seq<string>) returns (authors: seq<string>)
    ensures authors == Authors(metaContents, tagTexts)
  {
    authors := MetaAuthors(metaContents);
    if authors == [] {
      var first := PyTake(tagTexts, 10);
      authors := TagAuthors(first);
    }
  }

  /** The loop over the `citation_author` meta tags. */
  method MetaAuthors(metaContents: seq<Option<string>>) returns (authors: seq<string>)
    ensures authors == Present(metaContents, |metaContents|)
  {
    authors := [];
    var i := 0;
    while i < |metaContents|
      invariant 0 <= i <= |metaContents|
      invariant authors == Present(metaContents, i)
    {
      var name := metaContents[i];
      if name.Some? && name.value != [] {
        authors := authors + [name.value];
      }
      i := i + 1;
    }
  }

  /** The loop over the first ten author tags. */
  method TagAuthors(tags: seq<string>) returns (authors: seq<string>)
    ensures authors == LongNames(tags, |tags|)
  {
    authors := [];
    var k := 0;
    while k < |tags|
      invariant 0 <= k <= |tags|
      invariant authors == LongNames(tags, k)
    {
      if |tags[k]| > 2 {
        authors := authors + [tags[k]];
      }
      k := k + 1;
    }
  }

  // ----------------------------------------------------------- reviewer name

  /** `s` begins with the lower-case word `t`, ignoring the case of ASCII letters. */
  predicate WordAt(s: string, t: string) {
    |t| <= |s| && forall i :: 0 <= i < |t| ==> LowerChar(s[i]) == t[i]
  }

  /** `re.sub(r'Referee|Reviewer|Report by', '', s, flags=re.IGNORECASE)`. */
  function RemoveTitles(s: string): (r: string)
    ensures |r| <= |s|
    decreases |s|
  {
    if s == [] then []
    else if WordAt(s, "referee") then RemoveTitles(s[7..])
    else if WordAt(s, "reviewer") then RemoveTitles(s[8..])
    else if WordAt(s, "report by") then RemoveTitles(s[9..])
    else [s[0]] + RemoveTitles(s[1..])
  }

  /**
   * The reviewer name read from a heading: the heading without its title
   * words, stripped, and `None` when that leaves fewer than three
   * characters or there is no heading.
   */
  function CleanName(heading: Option<string>): (r: Option<string>)
    ensures r.Some? ==> |r.value| >= 3
  {
    if heading.None? then None
    else
      var name := Strip(RemoveTitles(heading.value));
      if |name| < 3 then None else Some(name)
  }

  /** A name never begins or ends with whitespace. */
  lemma CleanNameStripped(heading: Option<string>)
    requires CleanName(heading).Some?
    ensures var n := CleanName(heading).value; !IsSpace(n[0]) && !IsSpace(n[|n| - 1])
  {
    StripEnds(RemoveTitles(heading.value));
  }

  /** Text in which no character folds to `r` holds no title word. */
  lemma {:induction false} RemoveTitlesKeepsPlain(s: string)
    requires forall i :: 0 <= i < |s| ==> LowerChar(s[i]) != 'r'
    ensures RemoveTitles(s) == s
  {
    if s != [] {
      assert "referee"[0] == 'r' && "reviewer"[0] == 'r' && "report by"[0] == 'r';
      RemoveTitlesKeepsPlain(s[1..]);
    }
  }

  /**
   * A heading that is a title word, a space and at most two digits (`Referee 2`,
   * `Reviewer 12`) leaves the reviewer without a name, hence anonymous.
   */
  lemma NumberedHeadingIsAnonymous(title: string, d: string)
    requires title == "Referee" || title == "Reviewer" || title == "Report by"
    requires |d| < 3 && forall i :: 0 <= i < |d| ==> IsDigit(d[i])
    ensures CleanName(Some(title + " " + d)) == None
  {
    LeadingTitleRemoved(title, " " + d);
    assert title + " " + d == title + (" " + d);
    SpacedDigitsStripShort(d);
  }

  /** A title word at the front is removed, whatever follows it. */
  lemma LeadingTitleRemoved(title: string, rest: string)
    requires title == "Referee" || title == "Reviewer" || title == "Report by"
    ensures RemoveTitles(title + rest) == RemoveTitles(rest)
  {
    var s := title + rest;
    assert s[|title|..] == rest;
    assert forall i :: 0 <= i < |title| ==> s[i] == title[i];
    if title == "Referee" {
      assert forall i :: 0 <= i < 7 ==> LowerChar(s[i]) == "referee"[i];
    } else if title == "Reviewer" {
      assert LowerChar(s[2]) != "referee"[2];
      assert forall i :: 0 <= i < 8 ==> LowerChar(s[i]) == "reviewer"[i];
    } else {
      assert LowerChar(s[2]) != "referee"[2] && LowerChar(s[2]) != "reviewer"[2];
      assert forall i :: 0 <= i < 9 ==> LowerChar(s[i]) == "report by"[i];
    }
  }

  /** A space and at most two digits hold no title word and strip to fewer than three characters. */
  lemma SpacedDigitsStripShort(d: string)
    requires |d| < 3 && forall i :: 0 <= i < |d| ==> IsDigit(d[i])
    ensures |Strip(RemoveTitles(" " + d))| < 3
  {
    var rest := " " + d;
    RemoveTitlesKeepsPlain(rest);
    assert StripLeft(rest) == StripLeft(d);
    assert StripLeft(d) == d;
    assert StripRight(d) == d;
  }

  // ---------------------------------------------------------- recommendation

  /**
   * The recommendation read from a section's verdict text (`None` when no
   * text mentions approval): checked for "approved with reservations"
   * first, then "approved", then "not approved".
   */
  function Recommendation(verdict: Option<string>): Option<string> {
    if verdict.None? then None
    else
      var t := Lower(Strip(verdict.value));
      if Contains(t, "approved with reservations") then Some("approved_with_reservations")
      else if Contains(t, "approved") then Some("approved")
      else if Contains(t, "not approved") then Some("not_approved")
      else None
  }

  /**
   * Every text containing "not approved" contains "approved", so the
   * `not_approved` branch is never taken: a rejecting verdict is read as
   * `approved`.
   */
  lemma NotApprovedUnreachable(verdict: Option<string>)
    ensures Recommendation(verdict) != Some("not_approved")
  {
    if verdict.Some? {
      var t := Lower(Strip(verdict.value));
      if Contains(t, "not approved") {
        ContainsSuffix(t, "not approved", 4);
        assert "not approved"[4..] == "approved";
      }
    }
  }

  /** The three outcomes, each by what the verdict text contains. */
  lemma RecommendationCases(verdict: string)
    ensures var t := Lower(Strip(verdict));
      && (Recommendation(Some(verdict)) == Some("approved_with_reservations") <==> Contains(t, "approved with reservations"))
      && (Recommendation(Some(verdict)) == Some("approved") <==> Contains(t, "approved") && !Contains(t, "approved with reservations"))
      && (Recommendation(Some(verdict)) == None <==> !Contains(t, "approved"))
  {
    var t := Lower(Strip(verdict));
    NotApprovedUnreachable(Some(verdict));
    if Contains(t, "approved with reservations") {
      ContainsPrefix(t, "approved with reservations", 8);
      assert "approved with reservations"[..8] == "approved";
    }
  }

  // ---------------------------------------------------------------- reviews

  /**
   * What `_extract_reviews` reads from one referee-report section: the
   * reviewer heading, the affiliation, the report text and the verdict
   * text (each `None` when the section has no such element).
   */
  datatype Section = Section(heading: Option<string>, affiliation: Option<string>, text: string, verdict: Option<string>)

  /** The review built from the section at 1-based `position`. */
  function SectionReview(articleId: string, position: nat, s: Section): Review {
    var name := CleanName(s.heading);
    var reviewer := Reviewer(PositionId(articleId, "reviewer", position), name, s.affiliation, name.None?);
    PostInitReview(ReviewArgs(PositionId(articleId, "review", position), reviewer, s.text, Recommendation(s.verdict)))
  }

  /** Only a report longer than 100 characters becomes a review. */
  predicate Substantial(s: Section) {
    |s.text| > 100
  }

  /** The reviews of the first `n` sections. */
  function ReviewsOf(articleId: string, sections: seq<Section>, n: nat): seq<Review>
    requires n <= |sections|
  {
    KeptMap(sections, Substantial, (p: nat, s: Section) => SectionReview(articleId, p, s), n)
  }

  /** `_extract_reviews`. */
  method ExtractReviews(articleId: string, sections: seq<Section>) returns (reviews: seq<Review>)
    ensures reviews == ReviewsOf(articleId, sections, |sections|)
  {
    reviews := [];
    var i := 0;
    while i < |sections|
      invariant 0 <= i <= |sections|
      invariant reviews == ReviewsOf(articleId, sections, i)
    {
      var section := sections[i];
      var name := CleanName(section.heading);
      var recommendation := Recommendation(section.verdict);
      if |section.text| > 100 {
        var reviewer := Reviewer(PositionId(articleId, "reviewer", i + 1), name, section.affiliation, name.None?);
        reviews := reviews + [PostInitReview(ReviewArgs(PositionId(articleId, "review", i + 1), reviewer, section.text, recommendation))];
      }
      i := i + 1;
    }
  }

  /**
   * Every kept review has more than 100 characters of text, a word count,
   * a reviewer who is anonymous exactly when no name was read, and never
   * the `not_approved` recommendation; every substantial section yields
   * its review, and review identifiers never repeat.
   */
  lemma ReviewsShape(articleId: string, sections: seq<Section>)
    ensures var rs := ReviewsOf(articleId, sections, |sections|);
      forall k :: 0 <= k < |rs| ==>
        && |rs[k].reviewText| > 100
        && rs[k].wordCount == |Words(rs[k].reviewText)|
        && (rs[k].reviewer.isAnonymous <==> rs[k].reviewer.name.None?)
        && rs[k].recommendation != Some("not_approved")
    ensures var rs := ReviewsOf(articleId, sections, |sections|);
      forall k :: 0 <= k < |sections| && Substantial(sections[k]) ==> SectionReview(articleId, k + 1, sections[k]) in rs
    ensures var rs := ReviewsOf(articleId, sections, |sections|);
      forall j, k :: 0 <= j < k < |rs| ==> rs[j].reviewId != rs[k].reviewId
  {
    var rs := ReviewsOf(articleId, sections, |sections|);
    var ps := KeptPositions(sections, Substantial, |sections|);
    var build := (p: nat, s: Section) => SectionReview(articleId, p, s);
    KeptMapAtPositions(sections, Substantial, build, |sections|);
    KeptMapComplete(sections, Substantial, build, |sections|);
    KeptMapIdsDistinct(sections, Substantial, build, |sections|, (r: Review) => r.reviewId, articleId, "review");
    forall k | 0 <= k < |rs|
      ensures rs[k].recommendation != Some("not_approved")
    {
      NotApprovedUnreachable(sections[ps[k] - 1].verdict);
    }
  }

  // --------------------------------------------------------------- decision

  /** `_determine_decision`, on the text of the whole page. */
  function DetermineDecision(pageText: string): ReviewDecision {
    var t := Lower(pageText);
    if Contains(t, "approved") && !Contains(t, "not approved") then Accept
    else if Contains(t, "not approved") then Reject
    else Pending
  }

  /**
   * A page mentioning "not approved" anywhere is a rejection, one
   * mentioning only "approved" an acceptance, any other pending; no other
   * decision is produced.
   */
  lemma DecisionCases(pageText: string)
    ensures var t := Lower(pageText);
      && (DetermineDecision(pageText) == Reject <==> Contains(t, "not approved"))
      && (DetermineDecision(pageText) == Accept <==> Contains(t, "approved") && !Contains(t, "not approved"))
      && (DetermineDecision(pageText) == Pending <==> !Contains(t, "approved"))
  {
    var t := Lower(pageText);
    if Contains(t, "not approved") {
      ContainsSuffix(t, "not approved", 4);
      assert "not approved"[4..] == "approved";
    }
  }

  // ------------------------------------------------------------- manuscript

  /** What `collect_single_manuscript` reads from an article page. */
  datatype Page = Page(
    title: Option<string>,
    abstractText: Option<string>,
    authorMetas: seq<Option<string>>,
    authorTags: seq<string>,
    doi: Option<string>,
    keywords: Option<string>,
    sections: seq<Section>,
    publicationDate: Option<string>,
    text: string)

  /**
   * `collect_single_manuscript`: `None` when the page could not be
   * fetched; otherwise the manuscript, at `url` or the article's default
   * address.
   */
  method CollectSingleManuscript(articleId: string, url: Option<string>, page: Option<Page>, collectionDate: string)
    returns (m: Option<Manuscript>)
    ensures m.None? <==> page.None?
    ensures m.Some? ==>
      var p := page.value;
      && m.value.manuscriptId == articleId && m.value.source == F1000Research
      && m.value.sourceUrl == (if url.Some? && url.value != [] then url.value else BaseUrl + "/articles/" + articleId)
      && m.value.title == TitleOr(p.title, articleId)
      && m.value.authors == Authors(p.authorMetas, p.authorTags)
      && m.value.keywords == Keywords(p.keywords)
      && m.value.reviews == ReviewsOf(articleId, p.sections, |p.sections|)
      && m.value.numReviews == |m.value.reviews|
      && m.value.decision == DetermineDecision(p.text)
      && m.value.abstractText == p.abstractText && m.value.doi == p.doi
      && m.value.publicationDate == p.publicationDate
      && m.value.authorResponses == [] && m.value.editorialAssessments == []
      && m.value.collectionDate == collectionDate
      && m.value.rawData == HtmlCollected
  {
    if page.None? {
      return None;
    }
    var articleUrl := if url.Some? && url.value != [] then url.value else BaseUrl + "/articles/" + articleId;
    var p := page.value;
    var authors := ExtractAuthors(p.authorMetas, p.authorTags);
    var reviews := ExtractReviews(articleId, p.sections);
    m := Some(NewManuscript(
      articleId, F1000Research, articleUrl, TitleOr(p.title, articleId), p.abstractText, authors,
      Keywords(p.keywords), p.doi, reviews, [], [], p.publicationDate, DetermineDecision(p.text), collectionDate));
  }
}
