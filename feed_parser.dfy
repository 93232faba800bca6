/**
 * The ingestion pass of `src/services/feedParser.js`: the item defaults of the
 * feed reader, `cleanArticleData`, the deduplicating insertion loop over all active
 * feeds with its counters, the enrichment of a stored article, `addFeed` and the
 * preview of `getTestFeedData`. The HTTP fetch and the XML parse are one oracle
 * value per feed (`fetched`), cheerio's HTML-to-text is the function `htmlText`,
 * and the cleaning call made from inside the stream listener is the abstract
 * outcome `cleaning`.
 */
module FeedParser {
  import opened Wrappers
  import opened Text
  import opened Sorting
  import opened Database
  import Summarizer

  /** A date property as the feed parser normalises it: absent (null), a Date
      that does not hold a valid time, or a valid instant in seconds. */
  datatype DateValue = NoDate | InvalidDate | ValidDate(time: int)

  /** One item as the feed parser hands it over; `None` is a missing property. */
  datatype RawItem = RawItem(
    title: Option<string>, link: Option<string>, guid: Option<string>,
    description: Option<string>, summary: Option<string>, encoded: Option<string>,
    pubdate: DateValue, date: DateValue, author: Option<string>, categories: Option<seq<string>>)

  /** The object the `readable` listener builds for an item; `url` is "" when
      neither the link nor the guid is a non-empty string. */
  datatype ItemData = ItemData(
    title: string, url: string, description: string, content: string,
    published: DateValue, author: Option<string>, categories: seq<string>, feedId: Option<int>)

  /** An item after `cleanArticleData`. */
  datatype ParsedArticle = ParsedArticle(
    title: string, url: string, description: string, content: string,
    publishedAt: int, author: Option<string>, categories: seq<string>, feedId: Option<int>)

  const NoTitle := "No title"

  /** JavaScript `a || b` for an optional string. */
  function Or(a: Option<string>, b: string): string {
    if Truthy(a) then a.value else b
  }

  /** The defaults of the `readable` listener. */
  function BuildItem(item: RawItem, feedId: Option<int>, now: int): (r: ItemData)
    ensures r.title != ""
    ensures r.url != "" <==> Truthy(item.link) || Truthy(item.guid)
    ensures Truthy(item.link) ==> r.url == item.link.value
    ensures !Truthy(item.link) && Truthy(item.guid) ==> r.url == item.guid.value
    ensures Truthy(item.title) ==> r.title == item.title.value
    ensures !Truthy(item.title) ==> r.title == NoTitle
    ensures !Truthy(item.description) && !Truthy(item.summary) ==> r.description == ""
    ensures r.published != NoDate
    ensures item.pubdate.ValidDate? ==> r.published == item.pubdate
    ensures item.pubdate == NoDate && item.date == NoDate ==> r.published == ValidDate(now)
    ensures r.feedId == feedId
  {
    ItemData(
      Or(item.title, NoTitle),
      if Truthy(item.link) then item.link.value else item.guid.GetOr(""),
      Or(item.description, Or(item.summary, "")),
      Or(item.encoded, Or(item.description, "")),
      if item.pubdate != NoDate then item.pubdate
      else if item.date != NoDate then item.date
      else ValidDate(now),
      item.author,
      item.categories.GetOr([]),
      feedId)
  }

  /** The listener's `article.url && article.title` test. */
  predicate Keeps(d: ItemData) { d.url != "" && d.title != "" }

  /** Since every built item has a title, an item is kept exactly when it has a link or a guid. */
  lemma KeptIffLinked(item: RawItem, feedId: Option<int>, now: int)
    ensures Keeps(BuildItem(item, feedId, now)) <==> Truthy(item.link) || Truthy(item.guid)
  {
  }

  /** The built items the listener keeps from the first `n` items, in feed order. */
  function KeptUpTo(items: seq<RawItem>, n: nat, feedId: Option<int>, now: int): (r: seq<ItemData>)
    requires n <= |items|
    ensures |r| <= n
    ensures forall d :: d in r ==> Keeps(d) && d.feedId == feedId
    decreases n
  {
    if n == 0 then []
    else
      var d := BuildItem(items[n - 1], feedId, now);
      KeptUpTo(items, n - 1, feedId, now) + if Keeps(d) then [d] else []
  }

  /** The built items the listener keeps, in feed order. */
  function Kept(items: seq<RawItem>, feedId: Option<int>, now: int): (r: seq<ItemData>)
    ensures |r| <= |items|
    ensures forall d :: d in r ==> Keeps(d) && d.feedId == feedId
  {
    KeptUpTo(items, |items|, feedId, now)
  }

  /** Among the first `n` items, exactly the built items with a URL and a title are kept. */
  lemma {:induction false} KeptUpToExactly(items: seq<RawItem>, n: nat, feedId: Option<int>, now: int)
    requires n <= |items|
    ensures forall d :: d in KeptUpTo(items, n, feedId, now) ==>
      exists k :: 0 <= k < n && d == BuildItem(items[k], feedId, now)
    ensures forall k :: 0 <= k < n && Keeps(BuildItem(items[k], feedId, now)) ==>
      BuildItem(items[k], feedId, now) in KeptUpTo(items, n, feedId, now)
    decreases n
  {
    if n > 0 {
      KeptUpToExactly(items, n - 1, feedId, now);
      var rest := KeptUpTo(items, n - 1, feedId, now);
      var last := BuildItem(items[n - 1], feedId, now);
      var tail := if Keeps(last) then [last] else [];
      assert KeptUpTo(items, n, feedId, now) == rest + tail;
      forall d | d in rest + tail
        ensures exists k :: 0 <= k < n && d == BuildItem(items[k], feedId, now)
      {
        if d !in rest {
          assert d == BuildItem(items[n - 1], feedId, now);
        }
      }
      forall k | 0 <= k < n && Keeps(BuildItem(items[k], feedId, now))
        ensures BuildItem(items[k], feedId, now) in rest + tail
      {
        if k == n - 1 {
          assert BuildItem(items[k], feedId, now) in tail;
        } else {
          assert BuildItem(items[k], feedId, now) in rest;
        }
      }
    }
  }

  /** Exactly the built items with a URL and a title are kept. */
  lemma KeptExactly(items: seq<RawItem>, feedId: Option<int>, now: int)
    ensures forall d :: d in Kept(items, feedId, now) ==> exists it :: it in items && d == BuildItem(it, feedId, now)
    ensures forall it :: it in items && Keeps(BuildItem(it, feedId, now)) ==> BuildItem(it, feedId, now) in Kept(items, feedId, now)
  {
    KeptUpToExactly(items, |items|, feedId, now);
    forall d | d in Kept(items, feedId, now)
      ensures exists it :: it in items && d == BuildItem(it, feedId, now)
    {
      var k :| 0 <= k < |items| && d == BuildItem(items[k], feedId, now);
      assert items[k] in items;
    }
  }

  /** `cleanArticleData`: the text of the content (or description) HTML, trimmed;
      an invalid date replaced by "now"; title and URL trimmed; the other fields kept. */
  function CleanArticleData(d: ItemData, htmlText: string -> string, now: int): (r: ParsedArticle)
    ensures d.published.ValidDate? ==> r.publishedAt == d.published.time
    ensures !d.published.ValidDate? ==> r.publishedAt == now
    ensures r.description == d.description && r.author == d.author
    ensures r.categories == d.categories && r.feedId == d.feedId
  {
    ParsedArticle(
      Trim(d.title), Trim(d.url), d.description,
      Trim(htmlText(if d.content != "" then d.content else d.description)),
      if d.published.ValidDate? then d.published.time else now,
      d.author, d.categories, d.feedId)
  }

  /** The cleaned title, URL and content carry no whitespace at either end; the
      title and URL are empty exactly when they were blank. */
  lemma CleanedShape(d: ItemData, htmlText: string -> string, now: int)
    ensures var r := CleanArticleData(d, htmlText, now);
      && Trimmed(r.title) && Trimmed(r.url) && Trimmed(r.content)
      && (r.title == [] <==> AllSpace(d.title))
      && (r.url == [] <==> AllSpace(d.url))
  {
    var r := CleanArticleData(d, htmlText, now);
    var html := htmlText(if d.content != "" then d.content else d.description);
    assert r.title == Trim(d.title) && r.url == Trim(d.url) && r.content == Trim(html);
    TrimShape(d.title);
    TrimShape(d.url);
    TrimShape(html);
  }

  /** Trimming the title keeps its visible text: a title that is already trimmed is kept as is. */
  lemma CleanKeepsTrimmedTitle(d: ItemData, htmlText: string -> string, now: int)
    requires Trimmed(d.title)
    ensures CleanArticleData(d, htmlText, now).title == d.title
  {
    TrimTrimmed(d.title);
  }

  /** `parseFeed`: a failed fetch or parse is passed on; otherwise every kept item
      is cleaned, unless the cleaning call itself fails on the first kept item. */
  function Parsed(fetched: Result<seq<RawItem>, string>, feedId: Option<int>, now: int,
                  htmlText: string -> string, cleaning: Outcome<string>): (r: Result<seq<ParsedArticle>, string>)
  {
    match fetched
    case Failure(e) => Failure(e)
    case Success(items) =>
      var kept := Kept(items, feedId, now);
      if kept != [] && cleaning.Fail? then Failure(cleaning.error)
      else Success(CleanAll(kept, htmlText, now))
  }

  /** What `parseFeed` resolves to: the fetch error, the cleaning error when some item
      is kept, or the cleaned kept items in feed order. */
  lemma ParsedOutcomes(fetched: Result<seq<RawItem>, string>, feedId: Option<int>, now: int,
                       htmlText: string -> string, cleaning: Outcome<string>)
    ensures fetched.Failure? ==> Parsed(fetched, feedId, now, htmlText, cleaning) == Failure(fetched.error)
    ensures fetched.Success? && cleaning.Fail? && Kept(fetched.value, feedId, now) != [] ==>
      Parsed(fetched, feedId, now, htmlText, cleaning) == Failure(cleaning.error)
    ensures fetched.Success? && (cleaning.Pass? || Kept(fetched.value, feedId, now) == []) ==>
      Parsed(fetched, feedId, now, htmlText, cleaning).Success?
    ensures var r := Parsed(fetched, feedId, now, htmlText, cleaning);
      r.Success? ==>
        && fetched.Success?
        && |r.value| == |Kept(fetched.value, feedId, now)|
        && forall i :: 0 <= i < |r.value| ==>
             r.value[i] == CleanArticleData(Kept(fetched.value, feedId, now)[i], htmlText, now)
  {
  }

  /** `cleanArticleData` applied to each kept item, in order. */
  function CleanAll(kept: seq<ItemData>, htmlText: string -> string, now: int): (r: seq<ParsedArticle>)
    ensures |r| == |kept|
    ensures forall i :: 0 <= i < |r| ==> r[i] == CleanArticleData(kept[i], htmlText, now)
  {
    seq(|kept|, i requires 0 <= i < |kept| => CleanArticleData(kept[i], htmlText, now))
  }

  lemma CleanAllSnoc(kept: seq<ItemData>, d: ItemData, htmlText: string -> string, now: int)
    ensures CleanAll(kept + [d], htmlText, now) == CleanAll(kept, htmlText, now) + [CleanArticleData(d, htmlText, now)]
  {
    var l := CleanAll(kept + [d], htmlText, now);
    assert forall i :: 0 <= i < |kept| ==> (kept + [d])[i] == kept[i];
    assert l == CleanAll(kept, htmlText, now) + [CleanArticleData(d, htmlText, now)];
  }

  /** The `readable` listener's loop: build each item, keep it when it has a URL and
      a title, clean it, and push it. */
  method ParseFeed(fetched: Result<seq<RawItem>, string>, feedId: Option<int>, now: int,
                   htmlText: string -> string, cleaning: Outcome<string>) returns (r: Result<seq<ParsedArticle>, string>)
    ensures r == Parsed(fetched, feedId, now, htmlText, cleaning)
  {
    if fetched.Failure? {
      return Failure(fetched.error);
    }
    var items := fetched.value;
    var articles: seq<ParsedArticle> := [];
    for i := 0 to |items|
      invariant Progress(items, i, feedId, now, htmlText, cleaning, articles)
    {
      var failed;
      failed, articles := PushItem(items, i, feedId, now, htmlText, cleaning, articles);
      if failed {
        ParseFailed(fetched, feedId, now, htmlText, cleaning);
        return Failure(cleaning.error);
      }
    }
    ParseDone(fetched, feedId, now, htmlText, cleaning, articles);
    r := Success(articles);
  }

  /** After the first `i` items: the pushed articles are the cleaned kept items, and
      none was kept when the cleaning call fails. */
  ghost predicate Progress(items: seq<RawItem>, i: nat, feedId: Option<int>, now: int, htmlText: string -> string,
                           cleaning: Outcome<string>, articles: seq<ParsedArticle>)
  {
    && i <= |items|
    && articles == CleanAll(KeptUpTo(items, i, feedId, now), htmlText, now)
    && (cleaning.Fail? ==> KeptUpTo(items, i, feedId, now) == [])
  }

  /** One turn of the `readable` loop: build item `i` and, when it is kept, clean it
      and push it; `failed` is set when the cleaning call fails on it. */
  method PushItem(items: seq<RawItem>, i: nat, feedId: Option<int>, now: int, htmlText: string -> string,
                  cleaning: Outcome<string>, articles: seq<ParsedArticle>)
    returns (failed: bool, next: seq<ParsedArticle>)
    requires i < |items|
    requires Progress(items, i, feedId, now, htmlText, cleaning, articles)
    ensures failed ==> cleaning.Fail? && Kept(items, feedId, now) != []
    ensures !failed ==> Progress(items, i + 1, feedId, now, htmlText, cleaning, next)
  {
    var article := BuildItem(items[i], feedId, now);
    if Keeps(article) {
      if cleaning.Fail? {
        KeptUpToGrows(items, i + 1, |items|, feedId, now);
        return true, articles;
      }
      assert KeptUpTo(items, i + 1, feedId, now) == KeptUpTo(items, i, feedId, now) + [article];
      CleanAllSnoc(KeptUpTo(items, i, feedId, now), article, htmlText, now);
      next := articles + [CleanArticleData(article, htmlText, now)];
    } else {
      assert KeptUpTo(items, i + 1, feedId, now) == KeptUpTo(items, i, feedId, now);
      next := articles;
    }
    failed := false;
  }

  /** The cleaning call failing on a kept item rejects the whole feed. */
  lemma ParseFailed(fetched: Result<seq<RawItem>, string>, feedId: Option<int>, now: int,
                    htmlText: string -> string, cleaning: Outcome<string>)
    requires fetched.Success? && cleaning.Fail? && Kept(fetched.value, feedId, now) != []
    ensures Parsed(fetched, feedId, now, htmlText, cleaning) == Failure(cleaning.error)
  {
    ParsedCases(fetched, feedId, now, htmlText, cleaning);
  }

  /** A loop that ran over every item without a failed cleaning call resolves to the
      cleaned kept items. */
  lemma ParseDone(fetched: Result<seq<RawItem>, string>, feedId: Option<int>, now: int,
                  htmlText: string -> string, cleaning: Outcome<string>, articles: seq<ParsedArticle>)
    requires fetched.Success?
    requires Progress(fetched.value, |fetched.value|, feedId, now, htmlText, cleaning, articles)
    ensures Parsed(fetched, feedId, now, htmlText, cleaning) == Success(articles)
  {
    ParsedCases(fetched, feedId, now, htmlText, cleaning);
  }

  lemma ParsedCases(fetched: Result<seq<RawItem>, string>, feedId: Option<int>, now: int,
                    htmlText: string -> string, cleaning: Outcome<string>)
    requires fetched.Success?
    ensures var kept := Kept(fetched.value, feedId, now);
      Parsed(fetched, feedId, now, htmlText, cleaning) ==
        if kept != [] && cleaning.Fail? then Failure(cleaning.error) else Success(CleanAll(kept, htmlText, now))
  {
  }

  /** What is kept from a prefix is no longer than what is kept from a longer prefix. */
  lemma {:induction false} KeptUpToGrows(items: seq<RawItem>, n: nat, m: nat, feedId: Option<int>, now: int)
    requires n <= m <= |items|
    ensures |KeptUpTo(items, n, feedId, now)| <= |KeptUpTo(items, m, feedId, now)|
    decreases m - n
  {
    if n < m {
      KeptUpToGrows(items, n, m - 1, feedId, now);
    }
  }

  /** `checkArticleExists`: the ids of the stored articles with that URL. */
  function ArticleIdsWithUrl(articles: seq<Article>, url: string): (r: seq<nat>)
    ensures r == [] <==> forall a :: a in articles ==> a.url != url
    ensures SortedBy(articles, ArticleBefore) ==> |r| <= 1
    ensures forall id :: id in r ==> exists a :: a in articles && a.id == id && a.url == url
  {
    if articles == [] then []
    else
      var rest := ArticleIdsWithUrl(articles[1..], url);
      assert forall a :: a in articles <==> a == articles[0] || a in articles[1..];
      if articles[0].url == url then
        assert SortedBy(articles, ArticleBefore) ==> rest == [] by {
          if SortedBy(articles, ArticleBefore) {
            forall a | a in articles[1..]
              ensures a.url != url
            {
              var k :| 0 <= k < |articles[1..]| && articles[1..][k] == a;
              assert ArticleBefore(articles[0], articles[k + 1]);
            }
          }
        }
        [articles[0].id] + rest
      else rest
  }

  /** The counters `fetchAndProcessAllFeeds` returns. */
  datatype FeedResults = FeedResults(
    totalFeeds: nat, successfulFeeds: nat, failedFeeds: nat, newArticles: nat, processedArticles: nat)

  /** The fire-and-forget enrichment jobs started for inserted rows: (id, URL). */
  function Jobs(rows: seq<Article>): (r: seq<(nat, string)>)
    ensures |r| == |rows|
    ensures forall i :: 0 <= i < |r| ==> r[i] == (rows[i].id, rows[i].url)
  {
    if rows == [] then [] else [(rows[0].id, rows[0].url)] + Jobs(rows[1..])
  }

  lemma JobsAppend(a: seq<Article>, b: seq<Article>)
    ensures Jobs(a + b) == Jobs(a) + Jobs(b)
  {
  }

  /** A freshly inserted article: not processed, no summary, no keywords. */
  predicate Fresh(a: Article) { !a.processed && a.summary.None? && a.keywords.None? }

  /** `rows` extends `before` with fresh articles only. */
  ghost predicate Grown(before: seq<Article>, rows: seq<Article>) {
    && |before| <= |rows| && rows[..|before|] == before
    && forall i :: |before| <= i < |rows| ==> Fresh(rows[i])
  }

  /** Every parsed article has a stored row with its URL. */
  ghost predicate AllStored(parsed: seq<ParsedArticle>, rows: seq<Article>) {
    forall a :: a in parsed ==> exists b :: b in rows && b.url == a.url
  }

  lemma StoredGrows(parsed: seq<ParsedArticle>, rows: seq<Article>, more: seq<Article>)
    requires AllStored(parsed, rows)
    requires |rows| <= |more| && more[..|rows|] == rows
    ensures AllStored(parsed, more)
  {
    forall a | a in parsed
      ensures exists b :: b in more && b.url == a.url
    {
      var b :| b in rows && b.url == a.url;
      var k :| 0 <= k < |rows| && rows[k] == b;
      assert more[k] == b;
    }
  }

  function AsNewArticle(a: ParsedArticle): NewArticle {
    NewArticle(a.feedId, a.title, a.url, a.content, a.publishedAt)
  }

  /** The inner loop of `fetchAndProcessAllFeeds` for one parsed feed: an article is
      inserted only when no stored article has its URL, and each insertion starts
      one enrichment job. */
  method SaveNewArticles(store: Store, parsed: seq<ParsedArticle>, now: int) returns (jobs: seq<(nat, string)>)
    requires store.Valid()
    modifies store
    ensures store.Valid()
    ensures store.users == old(store.users) && store.feeds == old(store.feeds)
    ensures store.subscriptions == old(store.subscriptions) && store.deliveries == old(store.deliveries)
    ensures Grown(old(store.articles), store.articles)
    ensures jobs == Jobs(store.articles[|old(store.articles)|..])
    ensures AllStored(parsed, store.articles)
    ensures Provenance(parsed, old(store.articles), store.articles)
    ensures store.Counters() == old(store.Counters()).(article := store.lastArticleId)
    ensures store.lastArticleId == old(store.lastArticleId) + |store.articles| - |old(store.articles)|
  {
    ghost var before := store.articles;
    jobs := [];
    for j := 0 to |parsed|
      invariant store.Valid()
      invariant store.users == old(store.users) && store.feeds == old(store.feeds)
      invariant store.subscriptions == old(store.subscriptions) && store.deliveries == old(store.deliveries)
      invariant Grown(before, store.articles)
      invariant jobs == Jobs(store.articles[|before|..])
      invariant AllStored(parsed[..j], store.articles)
      invariant Provenance(parsed, before, store.articles)
      invariant store.Counters() == old(store.Counters()).(article := store.lastArticleId)
      invariant store.lastArticleId == old(store.lastArticleId) + |store.articles| - |old(store.articles)|
    {
      var article := parsed[j];
      ghost var mid := store.articles;
      var existing := ArticleIdsWithUrl(store.articles, article.url);
      if |existing| == 0 {
        var saved := store.CreateArticle(AsNewArticle(article), now);
        InsertStep(parsed, j, before, mid, store.articles);
        jobs := jobs + [(saved.value, article.url)];
      } else {
        KnownStep(parsed, j, mid);
      }
    }
    assert parsed[..|parsed|] == parsed;
  }

  /** Every row past `before` carries the URL and title of some parsed article. */
  ghost predicate Provenance(parsed: seq<ParsedArticle>, before: seq<Article>, rows: seq<Article>) {
    forall i :: |before| <= i < |rows| ==>
      exists a :: a in parsed && rows[i].url == a.url && rows[i].title == a.title
  }

  /** Inserting the `j`th parsed article keeps the loop's invariants. */
  lemma InsertStep(parsed: seq<ParsedArticle>, j: nat, before: seq<Article>, mid: seq<Article>, rows: seq<Article>)
    requires j < |parsed|
    requires Grown(before, mid) && AllStored(parsed[..j], mid) && Provenance(parsed, before, mid)
    requires |rows| == |mid| + 1 && rows[..|mid|] == mid
    requires Fresh(rows[|mid|]) && rows[|mid|].url == parsed[j].url && rows[|mid|].title == parsed[j].title
    ensures Grown(before, rows) && AllStored(parsed[..j + 1], rows) && Provenance(parsed, before, rows)
    ensures Jobs(rows[|before|..]) == Jobs(mid[|before|..]) + [(rows[|mid|].id, rows[|mid|].url)]
  {
    var row := rows[|mid|];
    assert rows == mid + [row];
    GrownStep(before, mid, row);
    StoredStep(parsed, j, mid, rows);
    ProvenanceStep(parsed, j, before, mid, row);
    JobsStep(before, mid, row);
  }

  lemma GrownStep(before: seq<Article>, mid: seq<Article>, row: Article)
    requires Grown(before, mid) && Fresh(row)
    ensures Grown(before, mid + [row])
  {
    var rows := mid + [row];
    assert rows[..|before|] == mid[..|before|];
    forall i | |before| <= i < |rows|
      ensures Fresh(rows[i])
    {
      if i < |mid| {
        assert rows[i] == mid[i];
      }
    }
  }

  lemma StoredStep(parsed: seq<ParsedArticle>, j: nat, mid: seq<Article>, rows: seq<Article>)
    requires j < |parsed| && AllStored(parsed[..j], mid)
    requires |rows| == |mid| + 1 && rows[..|mid|] == mid && rows[|mid|].url == parsed[j].url
    ensures AllStored(parsed[..j + 1], rows)
  {
    StoredGrows(parsed[..j], mid, rows);
    assert parsed[..j + 1] == parsed[..j] + [parsed[j]];
    assert rows[|mid|] in rows;
  }

  lemma ProvenanceStep(parsed: seq<ParsedArticle>, j: nat, before: seq<Article>, mid: seq<Article>, row: Article)
    requires j < |parsed| && |before| <= |mid| && Provenance(parsed, before, mid)
    requires row.url == parsed[j].url && row.title == parsed[j].title
    ensures Provenance(parsed, before, mid + [row])
  {
    var rows := mid + [row];
    forall i | |before| <= i < |rows|
      ensures exists a :: a in parsed && rows[i].url == a.url && rows[i].title == a.title
    {
      if i < |mid| {
        assert rows[i] == mid[i];
      } else {
        assert parsed[j] in parsed;
      }
    }
  }

  lemma JobsStep(before: seq<Article>, mid: seq<Article>, row: Article)
    requires |before| <= |mid|
    ensures Jobs((mid + [row])[|before|..]) == Jobs(mid[|before|..]) + [(row.id, row.url)]
  {
    assert (mid + [row])[|before|..] == mid[|before|..] + [row];
    JobsAppend(mid[|before|..], [row]);
  }

  /** Skipping the `j`th parsed article, whose URL is already stored. */
  lemma KnownStep(parsed: seq<ParsedArticle>, j: nat, rows: seq<Article>)
    requires j < |parsed| && AllStored(parsed[..j], rows)
    requires exists b :: b in rows && b.url == parsed[j].url
    ensures AllStored(parsed[..j + 1], rows)
  {
    assert parsed[..j + 1] == parsed[..j] + [parsed[j]];
  }

  /** Whether the parse of `feed` succeeds under the given oracles. */
  function ParsesWith(fetch: string -> Result<seq<RawItem>, string>, htmlText: string -> string,
                      cleaning: Outcome<string>, now: int): Feed -> bool
  {
    (feed: Feed) => Parsed(fetch(feed.url), Some(feed.id), now, htmlText, cleaning).Success?
  }

  /** `fetchAndProcessAllFeeds`: every active feed, in name order, is parsed; a feed
      whose parse fails is counted failed and the loop goes on; a parsed feed has
      its new articles inserted, its `last_fetched` stamped, and counts as
      successful. `fetch` gives the fetch-and-parse result for a feed URL. */
  method FetchAndProcessAllFeeds(store: Store, fetch: string -> Result<seq<RawItem>, string>,
                                 htmlText: string -> string, cleaning: Outcome<string>, now: int)
    returns (results: FeedResults, spawned: seq<(nat, string)>)
    requires store.Valid()
    modifies store
    ensures store.Valid()
    ensures store.users == old(store.users) && store.subscriptions == old(store.subscriptions)
    ensures store.deliveries == old(store.deliveries)
    ensures results.totalFeeds == |old(store.GetActiveFeeds())|
    ensures results.successfulFeeds + results.failedFeeds == results.totalFeeds
    ensures results.successfulFeeds == |Filter(old(store.GetActiveFeeds()), ParsesWith(fetch, htmlText, cleaning, now))|
    ensures results.processedArticles == 0
    ensures Grown(old(store.articles), store.articles)
    ensures results.newArticles == |store.articles| - |old(store.articles)|
    ensures spawned == Jobs(store.articles[|old(store.articles)|..])
    ensures store.Counters() == old(store.Counters()).(article := store.lastArticleId)
    ensures store.lastArticleId == old(store.lastArticleId) + results.newArticles
    ensures PassProvenance(old(store.GetActiveFeeds()), fetch, htmlText, cleaning, now, old(store.articles), store.articles)
    ensures forall f :: f in old(store.feeds) && f.active && ParsesWith(fetch, htmlText, cleaning, now)(f) ==>
      AllStored(Parsed(fetch(f.url), Some(f.id), now, htmlText, cleaning).value, store.articles)
    ensures |store.feeds| == |old(store.feeds)|
    ensures forall i :: 0 <= i < |store.feeds| ==>
      store.feeds[i] == if old(store.feeds)[i].active && ParsesWith(fetch, htmlText, cleaning, now)(old(store.feeds)[i])
                        then old(store.feeds)[i].(lastFetched := Some(now))
                        else old(store.feeds)[i]
  {
    var active := store.GetActiveFeeds();
    ghost var succeeds := ParsesWith(fetch, htmlText, cleaning, now);
    ghost var feeds0 := store.feeds;
    results, spawned := FetchFeeds(store, active, fetch, htmlText, cleaning, now);
    ActiveStored(feeds0, active, fetch, htmlText, cleaning, now, store.articles);
    ActiveStamped(feeds0, active, succeeds, now);
  }

  /** Every active feed that parsed is one of the feeds the loop handled. */
  lemma ActiveStored(feeds: seq<Feed>, active: seq<Feed>, fetch: string -> Result<seq<RawItem>, string>,
                     htmlText: string -> string, cleaning: Outcome<string>, now: int, rows: seq<Article>)
    requires forall f :: f in active <==> f in feeds && f.active
    requires forall kk :: 0 <= kk < |active| && ParsesWith(fetch, htmlText, cleaning, now)(active[kk]) ==>
      AllStored(Parsed(fetch(active[kk].url), Some(active[kk].id), now, htmlText, cleaning).value, rows)
    ensures forall f :: f in feeds && f.active && ParsesWith(fetch, htmlText, cleaning, now)(f) ==>
      AllStored(Parsed(fetch(f.url), Some(f.id), now, htmlText, cleaning).value, rows)
  {
    forall f | f in feeds && f.active && ParsesWith(fetch, htmlText, cleaning, now)(f)
      ensures AllStored(Parsed(fetch(f.url), Some(f.id), now, htmlText, cleaning).value, rows)
    {
      assert f in active;
      var kk :| 0 <= kk < |active| && active[kk] == f;
    }
  }

  /** After the loop, a row is stamped exactly when it is active and its feed parsed. */
  lemma ActiveStamped(feeds: seq<Feed>, active: seq<Feed>, succeeds: Feed -> bool, now: int)
    requires SortedBy(feeds, FeedBefore)
    requires forall f :: f in active <==> f in feeds && f.active
    ensures |StampAll(feeds, active, succeeds, now)| == |feeds|
    ensures forall i :: 0 <= i < |feeds| ==>
      StampAll(feeds, active, succeeds, now)[i] ==
        if feeds[i].active && succeeds(feeds[i]) then feeds[i].(lastFetched := Some(now)) else feeds[i]
  {
    StampAllRows(feeds, active, succeeds, now);
    forall i | 0 <= i < |feeds|
      ensures StampedBy(active, succeeds, feeds[i].id) <==> feeds[i].active && succeeds(feeds[i])
    {
      ActiveFeedLookup(feeds, active, succeeds, i);
    }
  }

  /** The per-feed loop of `fetchAndProcessAllFeeds`, over the active feeds in order. */
  method FetchFeeds(store: Store, active: seq<Feed>, fetch: string -> Result<seq<RawItem>, string>,
                    htmlText: string -> string, cleaning: Outcome<string>, now: int)
    returns (results: FeedResults, spawned: seq<(nat, string)>)
    requires store.Valid()
    modifies store
    ensures store.Valid()
    ensures store.users == old(store.users) && store.subscriptions == old(store.subscriptions)
    ensures store.deliveries == old(store.deliveries)
    ensures results.totalFeeds == |active| && results.processedArticles == 0
    ensures results.successfulFeeds == |Filter(active, ParsesWith(fetch, htmlText, cleaning, now))|
    ensures results.successfulFeeds + results.failedFeeds == |active|
    ensures Grown(old(store.articles), store.articles)
    ensures results.newArticles == |store.articles| - |old(store.articles)|
    ensures spawned == Jobs(store.articles[|old(store.articles)|..])
    ensures store.Counters() == old(store.Counters()).(article := store.lastArticleId)
    ensures store.lastArticleId == old(store.lastArticleId) + results.newArticles
    ensures PassProvenance(active, fetch, htmlText, cleaning, now, old(store.articles), store.articles)
    ensures forall kk :: 0 <= kk < |active| && ParsesWith(fetch, htmlText, cleaning, now)(active[kk]) ==>
      AllStored(Parsed(fetch(active[kk].url), Some(active[kk].id), now, htmlText, cleaning).value, store.articles)
    ensures store.feeds == StampAll(old(store.feeds), active, ParsesWith(fetch, htmlText, cleaning, now), now)
  {
    var succeeds := ParsesWith(fetch, htmlText, cleaning, now);
    ghost var feeds0 := store.feeds;
    ghost var articles0 := store.articles;
    results := FeedResults(|active|, 0, 0, 0, 0);
    spawned := [];
    for k := 0 to |active|
      invariant store.Valid()
      invariant store.users == old(store.users) && store.subscriptions == old(store.subscriptions)
      invariant store.deliveries == old(store.deliveries)
      invariant results.totalFeeds == |active| && results.processedArticles == 0
      invariant results.successfulFeeds == |Filter(active[..k], succeeds)|
      invariant results.successfulFeeds + results.failedFeeds == k
      invariant Grown(articles0, store.articles)
      invariant results.newArticles == |store.articles| - |articles0|
      invariant spawned == Jobs(store.articles[|articles0|..])
      invariant store.Counters() == old(store.Counters()).(article := store.lastArticleId)
      invariant store.lastArticleId == old(store.lastArticleId) + results.newArticles
      invariant PassProvenance(active[..k], fetch, htmlText, cleaning, now, articles0, store.articles)
      invariant DoneStored(active[..k], fetch, htmlText, cleaning, now, store.articles)
      invariant store.feeds == StampAll(feeds0, active[..k], succeeds, now)
    {
      var feed := active[k];
      PrefixSnoc(active, k);
      FilterSnoc(active[..k], feed, succeeds);
      ghost var mid := store.articles;
      var ok, jobs := FetchFeed(store, feed, fetch, htmlText, cleaning, now);
      StampAllSnoc(feeds0, active[..k], feed, succeeds, now);
      if !ok {
        results := results.(failedFeeds := results.failedFeeds + 1);
      } else {
        JobsGrown(articles0, mid, store.articles);
        spawned := spawned + jobs;
        results := results.(successfulFeeds := results.successfulFeeds + 1,
                            newArticles := results.newArticles + |jobs|);
      }
      AllStoredStep(active[..k], feed, fetch, htmlText, cleaning, now, mid, store.articles);
      PassProvenanceStep(active[..k], feed, fetch, htmlText, cleaning, now, articles0, mid, store.articles);
    }
    assert active[..|active|] == active;
  }

  /** Growing the table twice spawns the jobs of both growths, in order. */
  lemma JobsGrown(before: seq<Article>, mid: seq<Article>, rows: seq<Article>)
    requires Grown(before, mid) && Grown(mid, rows)
    ensures Grown(before, rows)
    ensures Jobs(rows[|before|..]) == Jobs(mid[|before|..]) + Jobs(rows[|mid|..])
  {
    assert rows[|before|..] == mid[|before|..] + rows[|mid|..];
    JobsAppend(mid[|before|..], rows[|mid|..]);
  }

  /** One pass of the per-feed loop body: parse the feed; on success store its new
      articles and stamp its `last_fetched`; on failure change nothing. */
  method FetchFeed(store: Store, feed: Feed, fetch: string -> Result<seq<RawItem>, string>,
                   htmlText: string -> string, cleaning: Outcome<string>, now: int)
    returns (ok: bool, jobs: seq<(nat, string)>)
    requires store.Valid()
    modifies store
    ensures store.Valid()
    ensures store.users == old(store.users) && store.subscriptions == old(store.subscriptions)
    ensures store.deliveries == old(store.deliveries)
    ensures ok == ParsesWith(fetch, htmlText, cleaning, now)(feed)
    ensures Grown(old(store.articles), store.articles)
    ensures jobs == Jobs(store.articles[|old(store.articles)|..])
    ensures ok ==> AllStored(Parsed(fetch(feed.url), Some(feed.id), now, htmlText, cleaning).value, store.articles)
    ensures !ok ==> store.articles == old(store.articles)
    ensures ok ==> Provenance(Parsed(fetch(feed.url), Some(feed.id), now, htmlText, cleaning).value,
                              old(store.articles), store.articles)
    ensures store.Counters() == old(store.Counters()).(article := store.lastArticleId)
    ensures store.lastArticleId == old(store.lastArticleId) + |store.articles| - |old(store.articles)|
    ensures store.feeds == if ok then Stamp(old(store.feeds), feed.id, now) else old(store.feeds)
  {
    var parsed := ParseFeed(fetch(feed.url), Some(feed.id), now, htmlText, cleaning);
    if parsed.Failure? {
      ok, jobs := false, [];
      assert store.articles[|old(store.articles)|..] == [];
    } else {
      jobs := SaveNewArticles(store, parsed.value, now);
      var _ := store.UpdateFeedLastFetched(feed.id, now);
      ok := true;
    }
  }

  /** The feed table after each feed of `done` that parsed has been stamped, in order. */
  ghost function StampAll(feeds: seq<Feed>, done: seq<Feed>, succeeds: Feed -> bool, now: int): seq<Feed>
    decreases |done|
  {
    if done == [] then feeds
    else
      var rest := StampAll(feeds, done[..|done| - 1], succeeds, now);
      if succeeds(done[|done| - 1]) then Stamp(rest, done[|done| - 1].id, now) else rest
  }

  lemma StampAllSnoc(feeds: seq<Feed>, done: seq<Feed>, feed: Feed, succeeds: Feed -> bool, now: int)
    ensures StampAll(feeds, done + [feed], succeeds, now) ==
      if succeeds(feed) then Stamp(StampAll(feeds, done, succeeds, now), feed.id, now)
      else StampAll(feeds, done, succeeds, now)
  {
    assert (done + [feed])[..|done|] == done;
  }

  /** A row is stamped exactly when some feed of `done` with its id parsed. */
  lemma {:induction false} StampAllRows(feeds: seq<Feed>, done: seq<Feed>, succeeds: Feed -> bool, now: int)
    ensures |StampAll(feeds, done, succeeds, now)| == |feeds|
    ensures forall i :: 0 <= i < |feeds| ==>
      StampAll(feeds, done, succeeds, now)[i] ==
        if StampedBy(done, succeeds, feeds[i].id) then feeds[i].(lastFetched := Some(now)) else feeds[i]
    decreases |done|
  {
    if done != [] {
      var init := done[..|done| - 1];
      var last := done[|done| - 1];
      assert done == init + [last];
      StampAllRows(feeds, init, succeeds, now);
      if succeeds(last) {
        StampAdded(init, last, succeeds);
      } else {
        StampUnchanged(init, last, succeeds);
      }
    }
  }

  /** Every feed of `done` that parsed has all its articles stored in `rows`. */
  ghost predicate DoneStored(done: seq<Feed>, fetch: string -> Result<seq<RawItem>, string>,
                             htmlText: string -> string, cleaning: Outcome<string>, now: int, rows: seq<Article>)
  {
    forall kk :: 0 <= kk < |done| && ParsesWith(fetch, htmlText, cleaning, now)(done[kk]) ==>
      AllStored(Parsed(fetch(done[kk].url), Some(done[kk].id), now, htmlText, cleaning).value, rows)
  }

  /** The row was made from an article of `f`'s successful parse. */
  ghost predicate FromParsedFeed(row: Article, f: Feed, fetch: string -> Result<seq<RawItem>, string>,
                                 htmlText: string -> string, cleaning: Outcome<string>, now: int)
  {
    && ParsesWith(fetch, htmlText, cleaning, now)(f)
    && exists a :: a in Parsed(fetch(f.url), Some(f.id), now, htmlText, cleaning).value &&
         row.url == a.url && row.title == a.title
  }

  /** Every row past `before` was made from a parsed article of one of the feeds of `done`. */
  ghost predicate PassProvenance(done: seq<Feed>, fetch: string -> Result<seq<RawItem>, string>,
                                 htmlText: string -> string, cleaning: Outcome<string>, now: int,
                                 before: seq<Article>, rows: seq<Article>)
  {
    forall i :: |before| <= i < |rows| ==> FromSomeFeed(rows[i], done, fetch, htmlText, cleaning, now)
  }

  ghost predicate FromSomeFeed(row: Article, done: seq<Feed>, fetch: string -> Result<seq<RawItem>, string>,
                               htmlText: string -> string, cleaning: Outcome<string>, now: int)
  {
    exists kk :: 0 <= kk < |done| && FromParsedFeed(row, done[kk], fetch, htmlText, cleaning, now)
  }

  /** One more feed handled: its rows come from its own parse, and a feed that
      failed to parse added none. */
  lemma PassProvenanceStep(done: seq<Feed>, feed: Feed, fetch: string -> Result<seq<RawItem>, string>,
                           htmlText: string -> string, cleaning: Outcome<string>, now: int,
                           before: seq<Article>, mid: seq<Article>, rows: seq<Article>)
    requires PassProvenance(done, fetch, htmlText, cleaning, now, before, mid)
    requires |before| <= |mid| <= |rows| && rows[..|mid|] == mid
    requires ParsesWith(fetch, htmlText, cleaning, now)(feed) ==>
      Provenance(Parsed(fetch(feed.url), Some(feed.id), now, htmlText, cleaning).value, mid, rows)
    requires !ParsesWith(fetch, htmlText, cleaning, now)(feed) ==> rows == mid
    ensures PassProvenance(done + [feed], fetch, htmlText, cleaning, now, before, rows)
  {
    var all := done + [feed];
    forall i | |before| <= i < |rows|
      ensures FromSomeFeed(rows[i], all, fetch, htmlText, cleaning, now)
    {
      if i < |mid| {
        assert rows[i] == mid[i];
        var kk :| 0 <= kk < |done| && FromParsedFeed(mid[i], done[kk], fetch, htmlText, cleaning, now);
        assert all[kk] == done[kk];
      } else {
        assert all[|done|] == feed;
        assert FromParsedFeed(rows[i], feed, fetch, htmlText, cleaning, now);
      }
    }
  }

  /** One more feed handled: every feed parsed so far still has all its articles stored. */
  lemma AllStoredStep(done: seq<Feed>, feed: Feed, fetch: string -> Result<seq<RawItem>, string>,
                      htmlText: string -> string, cleaning: Outcome<string>, now: int,
                      mid: seq<Article>, rows: seq<Article>)
    requires DoneStored(done, fetch, htmlText, cleaning, now, mid)
    requires |mid| <= |rows| && rows[..|mid|] == mid
    requires ParsesWith(fetch, htmlText, cleaning, now)(feed) ==>
      AllStored(Parsed(fetch(feed.url), Some(feed.id), now, htmlText, cleaning).value, rows)
    ensures DoneStored(done + [feed], fetch, htmlText, cleaning, now, rows)
  {
    forall kk | 0 <= kk < |done + [feed]| && ParsesWith(fetch, htmlText, cleaning, now)((done + [feed])[kk])
      ensures AllStored(Parsed(fetch((done + [feed])[kk].url), Some((done + [feed])[kk].id), now, htmlText, cleaning).value, rows)
    {
      if kk < |done| {
        assert (done + [feed])[kk] == done[kk];
        StoredGrows(Parsed(fetch(done[kk].url), Some(done[kk].id), now, htmlText, cleaning).value, mid, rows);
      }
    }
  }

  /** Some feed among `done` with this id parsed successfully. */
  ghost predicate StampedBy(done: seq<Feed>, succeeds: Feed -> bool, id: nat) {
    exists kk :: 0 <= kk < |done| && done[kk].id == id && succeeds(done[kk])
  }

  lemma StampUnchanged(done: seq<Feed>, feed: Feed, succeeds: Feed -> bool)
    requires !succeeds(feed)
    ensures forall id :: StampedBy(done + [feed], succeeds, id) <==> StampedBy(done, succeeds, id)
  {
    forall id | StampedBy(done + [feed], succeeds, id)
      ensures StampedBy(done, succeeds, id)
    {
      var kk :| 0 <= kk < |done + [feed]| && (done + [feed])[kk].id == id && succeeds((done + [feed])[kk]);
      assert kk < |done|;
      assert done[kk] == (done + [feed])[kk];
    }
    forall id | StampedBy(done, succeeds, id)
      ensures StampedBy(done + [feed], succeeds, id)
    {
      var kk :| 0 <= kk < |done| && done[kk].id == id && succeeds(done[kk]);
      assert (done + [feed])[kk] == done[kk];
    }
  }

  lemma StampAdded(done: seq<Feed>, feed: Feed, succeeds: Feed -> bool)
    requires succeeds(feed)
    ensures forall id :: StampedBy(done + [feed], succeeds, id) <==> StampedBy(done, succeeds, id) || id == feed.id
  {
    forall id | StampedBy(done + [feed], succeeds, id) && id != feed.id
      ensures StampedBy(done, succeeds, id)
    {
      var kk :| 0 <= kk < |done + [feed]| && (done + [feed])[kk].id == id && succeeds((done + [feed])[kk]);
      assert kk < |done|;
      assert done[kk] == (done + [feed])[kk];
    }
    forall id | StampedBy(done, succeeds, id)
      ensures StampedBy(done + [feed], succeeds, id)
    {
      var kk :| 0 <= kk < |done| && done[kk].id == id && succeeds(done[kk]);
      assert (done + [feed])[kk] == done[kk];
    }
    assert (done + [feed])[|done|] == feed;
  }

  /** In a table with distinct ids, the feed stamped by id is the row itself. */
  lemma ActiveFeedLookup(feeds: seq<Feed>, active: seq<Feed>, succeeds: Feed -> bool, i: nat)
    requires SortedBy(feeds, FeedBefore) && i < |feeds|
    requires forall f :: f in active <==> f in feeds && f.active
    ensures StampedBy(active, succeeds, feeds[i].id) <==> feeds[i].active && succeeds(feeds[i])
  {
    if StampedBy(active, succeeds, feeds[i].id) {
      var kk :| 0 <= kk < |active| && active[kk].id == feeds[i].id && succeeds(active[kk]);
      assert active[kk] in feeds;
      var j :| 0 <= j < |feeds| && feeds[j] == active[kk];
    }
    if feeds[i].active && succeeds(feeds[i]) {
      assert feeds[i] in feeds;
      assert feeds[i] in active;
      var kk :| 0 <= kk < |active| && active[kk] == feeds[i];
    }
  }

  /** `processArticleAsync` for an inserted article: when extraction yields content,
      the standard-level summary and the keywords joined by ", " are stored and the
      article becomes processed; otherwise (including a thrown extraction) nothing
      changes. `extracted` is the extraction outcome; the replies are the OpenAI
      oracles of the summariser. */
  method ProcessArticle(store: Store, articleId: nat, extracted: Result<string, string>,
                        summaryReply: Option<Result<string, string>>, keywordReply: Option<Result<string, string>>)
    returns (keywords: seq<string>)
    requires store.Valid()
    modifies store
    ensures store.Valid()
    ensures store.users == old(store.users) && store.feeds == old(store.feeds)
    ensures store.subscriptions == old(store.subscriptions) && store.deliveries == old(store.deliveries)
    ensures store.Counters() == old(store.Counters())
    ensures !(extracted.Success? && extracted.value != "") ==> store.articles == old(store.articles) && keywords == []
    ensures extracted.Success? && extracted.value != "" ==>
      var summary := Summarizer.Summarize(extracted.value, "standard", summaryReply).summary;
      store.articles == Summarized(old(store.articles), articleId, summary, Join(keywords, ", "))
    ensures extracted.Success? && !AllSpace(extracted.value) && keywordReply.Some? && keywordReply.value.Success? ==>
      keywords == Summarizer.ParseKeywords(keywordReply.value.value)
    ensures extracted.Success? && !AllSpace(extracted.value) && (keywordReply.None? || keywordReply.value.Failure?) ==>
      && Summarizer.IsKeywordSelection(Summarizer.Words(extracted.value), 5, keywords)
      && (Summarizer.ConstructorKey !in Summarizer.Words(extracted.value) ==>
            Summarizer.IsKeywordRanking(Summarizer.Words(extracted.value), 5, keywords))
  {
    if !(extracted.Success? && extracted.value != "") {
      return [];
    }
    var content := extracted.value;
    var summary := Summarizer.Summarize(content, "standard", summaryReply);
    keywords := Summarizer.ExtractKeywords(content, 5, keywordReply);
    var _ := store.UpdateArticleSummary(articleId, summary.summary, Join(keywords, ", "));
  }

  /** `addFeed`: the URL is parsed first and the feed is stored only when that
      succeeds; a failed parse or a known URL is returned as the error. */
  method AddFeed(store: Store, name: string, url: string, fetched: Result<seq<RawItem>, string>,
                 htmlText: string -> string, cleaning: Outcome<string>, now: int) returns (r: Result<nat, string>)
    requires store.Valid()
    modifies store
    ensures store.Valid()
    ensures store.users == old(store.users) && store.subscriptions == old(store.subscriptions)
    ensures store.articles == old(store.articles) && store.deliveries == old(store.deliveries)
    ensures store.Counters() == old(store.Counters()).(feed := store.lastFeedId)
    ensures store.lastFeedId == if r.Success? then old(store.lastFeedId) + 1 else old(store.lastFeedId)
    ensures Parsed(fetched, None, now, htmlText, cleaning).Failure? ==>
      r == Failure(Parsed(fetched, None, now, htmlText, cleaning).error) && store.feeds == old(store.feeds)
    ensures Parsed(fetched, None, now, htmlText, cleaning).Success? && (exists f :: f in old(store.feeds) && f.url == url) ==>
      r == Failure(UniqueViolation(FeedKey)) && store.feeds == old(store.feeds)
    ensures Parsed(fetched, None, now, htmlText, cleaning).Success? && (forall f :: f in old(store.feeds) ==> f.url != url) ==>
      r == Success(old(store.lastFeedId) + 1) &&
      store.feeds == old(store.feeds) + [Feed(r.value, name, url, true, None, DefaultFetchInterval, now, now)]
  {
    var parsed := ParseFeed(fetched, None, now, htmlText, cleaning);
    if parsed.Failure? {
      return Failure(parsed.error);
    }
    r := store.CreateFeed(name, url, now);
  }

  /** One entry of `getTestFeedData`. */
  datatype Preview = Preview(title: string, url: string, publishedAt: int, preview: string)

  const DefaultTestItems := 5
  const PreviewLength := 200
  const Ellipsis := "..."

  /** `content.substring(0, 200) + '...'`. */
  function PreviewText(content: string): (r: string)
    ensures |r| <= PreviewLength + |Ellipsis| && EndsWith(r, Ellipsis)
    ensures |content| <= PreviewLength ==> r == content + Ellipsis
    ensures PreviewLength < |content| ==> |r| == PreviewLength + |Ellipsis|
    ensures r[..|r| - |Ellipsis|] == content[..|r| - |Ellipsis|]
  {
    var r := Take(content, PreviewLength) + Ellipsis;
    assert r[|r| - |Ellipsis|..] == Ellipsis;
    r
  }

  /** `getTestFeedData(url, maxItems = 5)`: the first `maxItems` parsed articles
      (`slice`, so a negative count drops from the end) as previews. */
  function TestFeedData(parsed: Result<seq<ParsedArticle>, string>, maxItems: Option<int>): (r: Result<seq<Preview>, string>)
    ensures parsed.Failure? ==> r == Failure(parsed.error)
    ensures parsed.Success? ==> r.Success? && |r.value| == |SliceTo(parsed.value, maxItems.GetOr(DefaultTestItems))|
    ensures parsed.Success? && 0 <= maxItems.GetOr(DefaultTestItems) ==> |r.value| <= maxItems.GetOr(DefaultTestItems)
    ensures parsed.Success? ==> forall i :: 0 <= i < |r.value| ==>
      var a := parsed.value[i];
      r.value[i] == Preview(a.title, a.url, a.publishedAt, PreviewText(a.content))
  {
    match parsed
    case Failure(e) => Failure(e)
    case Success(articles) =>
      var shown := SliceTo(articles, maxItems.GetOr(DefaultTestItems));
      Success(seq(|shown|, i requires 0 <= i < |shown| =>
        Preview(shown[i].title, shown[i].url, shown[i].publishedAt, PreviewText(shown[i].content))))
  }
}
