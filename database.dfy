/**
 * The SQLite content store of `src/services/database.js`: the five tables the
 * services use, held as sequences of rows in insertion (rowid) order, with the
 * schema's defaults and UNIQUE constraints, the insert and update methods, and the
 * filtered, ordered, limited views. Timestamps are whole seconds since the epoch;
 * the `now` parameter stands for SQLite's CURRENT_TIMESTAMP.
 */
module Database {
  import opened Wrappers
  import opened Sorting

  datatype User = User(
    id: nat, lineUserId: string, displayName: Option<string>,
    summaryLevel: string, deliveryTime: string, timezone: string,
    active: bool, createdAt: int, updatedAt: int)

  datatype Feed = Feed(
    id: nat, name: string, url: string, active: bool,
    lastFetched: Option<int>, fetchInterval: int, createdAt: int, updatedAt: int)

  datatype Subscription = Subscription(id: nat, userId: int, feedId: int, active: bool, createdAt: int)

  datatype Article = Article(
    id: nat, feedId: Option<int>, title: string, url: string, content: string,
    summary: Option<string>, keywords: Option<string>,
    publishedAt: int, processed: bool, createdAt: int)

  datatype Delivery = Delivery(
    id: nat, userId: int, articleId: int, deliveredAt: int,
    status: string, errorMessage: Option<string>)

  /** The values `createArticle` binds: everything else takes its column default. */
  datatype NewArticle = NewArticle(feedId: Option<int>, title: string, url: string, content: string, publishedAt: int)

  /** An article row with the joined `f.name AS feed_name` (NULL on a LEFT JOIN miss). */
  datatype FeedArticle = FeedArticle(article: Article, feedName: Option<string>)

  /** The `settings` object of `updateUserSettings`; `None` is an absent property,
      and `active` carries the JavaScript truthiness of a defined value. */
  datatype UserSettings = UserSettings(
    summaryLevel: Option<string>, deliveryTime: Option<string>,
    timezone: Option<string>, active: Option<bool>)

  const DefaultSummaryLevel := "standard"
  const DefaultDeliveryTime := "08:00"
  const DefaultTimezone := "Asia/Tokyo"
  const DefaultFetchInterval := 3600
  const DefaultStatus := "sent"
  const DefaultUnprocessedLimit := 10
  const DefaultRecentLimit := 20

  // The columns each UNIQUE constraint names in its error message.
  const UserKey := "users.line_user_id"
  const FeedKey := "rss_feeds.url"
  const ArticleKey := "articles.url"
  const SubscriptionKey := "user_subscriptions.user_id, user_subscriptions.feed_id"

  function UniqueViolation(columns: string): string {
    "SQLITE_CONSTRAINT: UNIQUE constraint failed: " + columns
  }

  // Row orders kept by each table: rowids grow, and the UNIQUE columns differ.
  predicate UserBefore(a: User, b: User) { a.id < b.id && a.lineUserId != b.lineUserId }
  predicate FeedBefore(a: Feed, b: Feed) { a.id < b.id && a.url != b.url }
  predicate SubscriptionBefore(a: Subscription, b: Subscription) {
    a.id < b.id && (a.userId != b.userId || a.feedId != b.feedId)
  }
  predicate ArticleBefore(a: Article, b: Article) { a.id < b.id && a.url != b.url }
  predicate DeliveryBefore(a: Delivery, b: Delivery) { a.id < b.id }

  /** A string setting is applied only when truthy, i.e. present and non-empty. */
  predicate Truthy(v: Option<string>) { v.Some? && v.value != "" }

  /** The row `updateUserSettings` leaves behind for a matching user. */
  function ApplySettings(u: User, s: UserSettings, now: int): (r: User)
    ensures r.id == u.id && r.lineUserId == u.lineUserId && r.displayName == u.displayName
    ensures r.createdAt == u.createdAt && r.updatedAt == now
    ensures r.summaryLevel != u.summaryLevel ==> Truthy(s.summaryLevel) && r.summaryLevel == s.summaryLevel.value
    ensures r.deliveryTime != u.deliveryTime ==> Truthy(s.deliveryTime) && r.deliveryTime == s.deliveryTime.value
    ensures r.timezone != u.timezone ==> Truthy(s.timezone) && r.timezone == s.timezone.value
    ensures r.active != u.active ==> s.active == Some(r.active)
    ensures Truthy(s.summaryLevel) ==> r.summaryLevel == s.summaryLevel.value
    ensures Truthy(s.deliveryTime) ==> r.deliveryTime == s.deliveryTime.value
    ensures Truthy(s.timezone) ==> r.timezone == s.timezone.value
    ensures s.active.Some? ==> r.active == s.active.value
  {
    u.(summaryLevel := if Truthy(s.summaryLevel) then s.summaryLevel.value else u.summaryLevel,
       deliveryTime := if Truthy(s.deliveryTime) then s.deliveryTime.value else u.deliveryTime,
       timezone := if Truthy(s.timezone) then s.timezone.value else u.timezone,
       active := if s.active.Some? then s.active.value else u.active,
       updatedAt := now)
  }

  /** `ORDER BY name`: SQLite's BINARY collation on UTF-8 is code-point order. */
  predicate ByName(a: Feed, b: Feed) { StrLe(a.name, b.name) }

  lemma ByNameTotal()
    ensures TotalPreorder(ByName)
  {
    forall a: Feed, b: Feed
      ensures ByName(a, b) || ByName(b, a)
    {
      StrLeTotal(a.name, b.name);
    }
    forall a: Feed, b: Feed, c: Feed | ByName(a, b) && ByName(b, c)
      ensures ByName(a, c)
    {
      StrLeTransitive(a.name, b.name, c.name);
    }
  }

  /** `ORDER BY published_at DESC`. */
  predicate Newest(a: Article, b: Article) { a.publishedAt >= b.publishedAt }

  predicate NewestJoined(a: FeedArticle, b: FeedArticle) { Newest(a.article, b.article) }

  /** The feed name a LEFT JOIN on `a.feed_id = f.id` attaches: NULL without a match. */
  function FeedNameOf(feeds: seq<Feed>, feedId: Option<int>): (r: Option<string>)
    ensures r.Some? <==> feedId.Some? && exists f :: f in feeds && f.id == feedId.value
    ensures r.Some? ==> exists f :: f in feeds && f.id == feedId.value && f.name == r.value
  {
    if feedId.None? || feeds == [] then None
    else if feeds[0].id == feedId.value then Some(feeds[0].name)
    else
      var r := FeedNameOf(feeds[1..], feedId);
      assert forall f :: f in feeds[1..] ==> f in feeds;
      assert forall f :: f in feeds && f != feeds[0] ==> f in feeds[1..];
      r
  }

  predicate Unprocessed(a: Article) { !a.processed }

  predicate Processed(a: Article) { a.processed }

  function Joined(feeds: seq<Feed>, articles: seq<Article>): (r: seq<FeedArticle>)
    ensures |r| == |articles|
    ensures forall i :: 0 <= i < |r| ==> r[i].article == articles[i] && r[i].feedName == FeedNameOf(feeds, articles[i].feedId)
  {
    if articles == [] then []
    else [FeedArticle(articles[0], FeedNameOf(feeds, articles[0].feedId))] + Joined(feeds, articles[1..])
  }

  /** The article rows of joined rows, in order. */
  function ArticlesOf(rows: seq<FeedArticle>): (r: seq<Article>)
    ensures |r| == |rows| && forall i :: 0 <= i < |r| ==> r[i] == rows[i].article
  {
    if rows == [] then [] else [rows[0].article] + ArticlesOf(rows[1..])
  }

  /** Joining loses no row and adds none: the join's article rows are its input. */
  lemma JoinedArticles(feeds: seq<Feed>, articles: seq<Article>)
    ensures ArticlesOf(Joined(feeds, articles)) == articles
  {
  }

  /** Whether `user` has an active subscription to `feedId`. */
  predicate SubscribedTo(subscriptions: seq<Subscription>, userId: int, feedId: int) {
    exists s :: s in subscriptions && s.userId == userId && s.feedId == feedId && s.active
  }

  // Per table: rows in rowid order, the UNIQUE columns distinct, no rowid above the counter.
  ghost predicate UsersOk(t: seq<User>, last: nat) {
    SortedBy(t, UserBefore) && forall u :: u in t ==> u.id <= last
  }
  ghost predicate FeedsOk(t: seq<Feed>, last: nat) {
    SortedBy(t, FeedBefore) && forall f :: f in t ==> f.id <= last
  }
  ghost predicate SubscriptionsOk(t: seq<Subscription>, last: nat) {
    SortedBy(t, SubscriptionBefore) && forall x :: x in t ==> x.id <= last
  }
  ghost predicate ArticlesOk(t: seq<Article>, last: nat) {
    SortedBy(t, ArticleBefore) && forall a :: a in t ==> a.id <= last
  }
  ghost predicate DeliveriesOk(t: seq<Delivery>, last: nat) {
    SortedBy(t, DeliveryBefore) && forall d :: d in t ==> d.id <= last
  }

  /** Whether some row, active or not, already holds the (user, feed) pair. */
  predicate HasPair(subscriptions: seq<Subscription>, userId: int, feedId: int) {
    exists s :: s in subscriptions && s.userId == userId && s.feedId == feedId
  }

  /** The five AUTOINCREMENT counters, table by table. */
  datatype IdCounters = IdCounters(user: nat, feed: nat, subscription: nat, article: nat, delivery: nat)

  class Store {
    var users: seq<User>
    var feeds: seq<Feed>
    var subscriptions: seq<Subscription>
    var articles: seq<Article>
    var deliveries: seq<Delivery>
    // The AUTOINCREMENT counters: the largest rowid ever handed out per table.
    var lastUserId: nat
    var lastFeedId: nat
    var lastSubscriptionId: nat
    var lastArticleId: nat
    var lastDeliveryId: nat

    ghost function Counters(): IdCounters
      reads this
    {
      IdCounters(lastUserId, lastFeedId, lastSubscriptionId, lastArticleId, lastDeliveryId)
    }

    /** The schema's UNIQUE constraints and the AUTOINCREMENT rowids. */
    ghost predicate Valid()
      reads this
    {
      && UsersOk(users, lastUserId) && FeedsOk(feeds, lastFeedId)
      && SubscriptionsOk(subscriptions, lastSubscriptionId)
      && ArticlesOk(articles, lastArticleId) && DeliveriesOk(deliveries, lastDeliveryId)
    }

    constructor ()
      ensures Valid()
      ensures users == [] && feeds == [] && subscriptions == [] && articles == [] && deliveries == []
    {
      users, feeds, subscriptions, articles, deliveries := [], [], [], [], [];
      lastUserId, lastFeedId, lastSubscriptionId, lastArticleId, lastDeliveryId := 0, 0, 0, 0, 0;
    }

    /** `createUser`: a new LINE id gets a row with the column defaults; a known one
        violates `line_user_id UNIQUE` and nothing is inserted. */
    method CreateUser(lineUserId: string, displayName: Option<string>, now: int) returns (r: Result<nat, string>)
      requires Valid()
      modifies this
      ensures Valid()
      ensures Counters() == old(Counters()).(user := lastUserId)
      ensures lastUserId == if r.Success? then old(lastUserId) + 1 else old(lastUserId)
      ensures feeds == old(feeds) && subscriptions == old(subscriptions)
      ensures articles == old(articles) && deliveries == old(deliveries)
      ensures (exists u :: u in old(users) && u.lineUserId == lineUserId) ==>
        r == Failure(UniqueViolation(UserKey)) && users == old(users)
      ensures (forall u :: u in old(users) ==> u.lineUserId != lineUserId) ==>
        && r == Success(old(lastUserId) + 1)
        && users == old(users) + [User(r.value, lineUserId, displayName, DefaultSummaryLevel,
                                      DefaultDeliveryTime, DefaultTimezone, true, now, now)]
    {
      if exists u :: u in users && u.lineUserId == lineUserId {
        return Failure(UniqueViolation(UserKey));
      }
      lastUserId := lastUserId + 1;
      users := users + [User(lastUserId, lineUserId, displayName, DefaultSummaryLevel,
                             DefaultDeliveryTime, DefaultTimezone, true, now, now)];
      r := Success(lastUserId);
    }

    /** `updateUserSettings`: the row with that LINE id takes the supplied settings
        and a fresh `updated_at`; `changes` counts the rows touched. */
    method UpdateUserSettings(lineUserId: string, settings: UserSettings, now: int) returns (changes: nat)
      requires Valid()
      modifies this
      ensures Valid()
      ensures Counters() == old(Counters())
      ensures feeds == old(feeds) && subscriptions == old(subscriptions)
      ensures articles == old(articles) && deliveries == old(deliveries)
      ensures |users| == |old(users)|
      ensures forall i :: 0 <= i < |users| ==>
        users[i] == if old(users)[i].lineUserId == lineUserId then ApplySettings(old(users)[i], settings, now)
                    else old(users)[i]
      ensures changes == if exists u :: u in old(users) && u.lineUserId == lineUserId then 1 else 0
    {
      var before := users;
      users := seq(|before|, i requires 0 <= i < |before| =>
        if before[i].lineUserId == lineUserId then ApplySettings(before[i], settings, now) else before[i]);
      UsersKeepOrder(before, users, lastUserId);
      changes := if exists u :: u in before && u.lineUserId == lineUserId then 1 else 0;
    }

    /** `createFeed`: a new URL gets an active row that was never fetched; a known
        one violates `url UNIQUE` and nothing is inserted. */
    method CreateFeed(name: string, url: string, now: int) returns (r: Result<nat, string>)
      requires Valid()
      modifies this
      ensures Valid()
      ensures Counters() == old(Counters()).(feed := lastFeedId)
      ensures lastFeedId == if r.Success? then old(lastFeedId) + 1 else old(lastFeedId)
      ensures users == old(users) && subscriptions == old(subscriptions)
      ensures articles == old(articles) && deliveries == old(deliveries)
      ensures (exists f :: f in old(feeds) && f.url == url) ==>
        r == Failure(UniqueViolation(FeedKey)) && feeds == old(feeds)
      ensures (forall f :: f in old(feeds) ==> f.url != url) ==>
        && r == Success(old(lastFeedId) + 1)
        && feeds == old(feeds) + [Feed(r.value, name, url, true, None, DefaultFetchInterval, now, now)]
    {
      if exists f :: f in feeds && f.url == url {
        return Failure(UniqueViolation(FeedKey));
      }
      lastFeedId := lastFeedId + 1;
      feeds := feeds + [Feed(lastFeedId, name, url, true, None, DefaultFetchInterval, now, now)];
      r := Success(lastFeedId);
    }

    /** `getAllFeeds`: every feed, ordered by name. */
    function GetAllFeeds(): (r: seq<Feed>)
      reads this
      ensures multiset(r) == multiset(feeds)
      ensures SortedBy(r, ByName)
    {
      ByNameTotal();
      SortBySorted(feeds, ByName);
      SortBy(feeds, ByName)
    }

    /** `getActiveFeeds`: exactly the active feeds, ordered by name. */
    function GetActiveFeeds(): (r: seq<Feed>)
      reads this
      ensures forall f :: f in r <==> f in feeds && f.active
      ensures multiset(r) <= multiset(feeds)
      ensures SortedBy(r, ByName)
    {
      var active := Filter(feeds, (f: Feed) => f.active);
      ByNameTotal();
      SortBySorted(active, ByName);
      SameElements(active, SortBy(active, ByName));
      SortBy(active, ByName)
    }

    /** `updateFeedLastFetched`: stamps `last_fetched` on the feed with that id. */
    method UpdateFeedLastFetched(feedId: int, now: int) returns (changes: nat)
      requires Valid()
      modifies this
      ensures Valid()
      ensures Counters() == old(Counters())
      ensures users == old(users) && subscriptions == old(subscriptions)
      ensures articles == old(articles) && deliveries == old(deliveries)
      ensures feeds == Stamp(old(feeds), feedId, now)
      ensures changes == if exists f :: f in old(feeds) && f.id == feedId then 1 else 0
    {
      var before := feeds;
      feeds := Stamp(before, feedId, now);
      FeedsKeepOrder(before, feeds, lastFeedId);
      changes := if exists f :: f in before && f.id == feedId then 1 else 0;
    }

    /** `createArticle`: a new URL gets an unprocessed row without summary or
        keywords; a stored one violates `url UNIQUE` and nothing is inserted. */
    method CreateArticle(a: NewArticle, now: int) returns (r: Result<nat, string>)
      requires Valid()
      modifies this
      ensures Valid()
      ensures Counters() == old(Counters()).(article := lastArticleId)
      ensures lastArticleId == if r.Success? then old(lastArticleId) + 1 else old(lastArticleId)
      ensures users == old(users) && feeds == old(feeds)
      ensures subscriptions == old(subscriptions) && deliveries == old(deliveries)
      ensures (exists b :: b in old(articles) && b.url == a.url) ==>
        r == Failure(UniqueViolation(ArticleKey)) && articles == old(articles)
      ensures (forall b :: b in old(articles) ==> b.url != a.url) ==>
        && r == Success(old(lastArticleId) + 1)
        && articles == old(articles) + [Article(r.value, a.feedId, a.title, a.url, a.content,
                                                None, None, a.publishedAt, false, now)]
    {
      if exists b :: b in articles && b.url == a.url {
        return Failure(UniqueViolation(ArticleKey));
      }
      lastArticleId := lastArticleId + 1;
      articles := articles + [Article(lastArticleId, a.feedId, a.title, a.url, a.content,
                                      None, None, a.publishedAt, false, now)];
      r := Success(lastArticleId);
    }

    /** `updateArticleSummary`: the article with that id gets its summary and
        keywords and becomes processed; every other row is unchanged. */
    method UpdateArticleSummary(articleId: int, summary: string, keywords: string) returns (changes: nat)
      requires Valid()
      modifies this
      ensures Valid()
      ensures Counters() == old(Counters())
      ensures users == old(users) && feeds == old(feeds)
      ensures subscriptions == old(subscriptions) && deliveries == old(deliveries)
      ensures articles == Summarized(old(articles), articleId, summary, keywords)
      ensures changes == if exists b :: b in old(articles) && b.id == articleId then 1 else 0
    {
      var before := articles;
      articles := Summarized(before, articleId, summary, keywords);
      ArticlesKeepOrder(before, articles, lastArticleId);
      changes := if exists b :: b in before && b.id == articleId then 1 else 0;
    }

    /** `getUnprocessedArticles(limit = 10)`: unprocessed articles, newest first. */
    function GetUnprocessedArticles(limit: Option<int>): (r: seq<Article>)
      reads this
      ensures var n := limit.GetOr(DefaultUnprocessedLimit); IsNewestFirst(articles, Unprocessed, n, r)
    {
      NewestFirst(articles, Unprocessed, limit.GetOr(DefaultUnprocessedLimit))
    }

    /** `getRecentArticles(limit = 20)`: processed articles, newest first, each
        with the name of its feed when the feed exists. */
    function GetRecentArticles(limit: Option<int>): (r: seq<FeedArticle>)
      reads this
      ensures IsNewestFirst(articles, Processed, limit.GetOr(DefaultRecentLimit), ArticlesOf(r))
      ensures forall x :: x in r ==> x.feedName == FeedNameOf(feeds, x.article.feedId)
    {
      var picked := NewestFirst(articles, Processed, limit.GetOr(DefaultRecentLimit));
      JoinedArticles(feeds, picked);
      Joined(feeds, picked)
    }

    /** `createSubscription`: a new (user, feed) pair gets an active row; a known
        pair violates `UNIQUE(user_id, feed_id)` and nothing is inserted. */
    method CreateSubscription(userId: int, feedId: int, now: int) returns (r: Result<nat, string>)
      requires Valid()
      modifies this
      ensures Valid()
      ensures Counters() == old(Counters()).(subscription := lastSubscriptionId)
      ensures lastSubscriptionId == if r.Success? then old(lastSubscriptionId) + 1 else old(lastSubscriptionId)
      ensures users == old(users) && feeds == old(feeds)
      ensures articles == old(articles) && deliveries == old(deliveries)
      ensures HasPair(old(subscriptions), userId, feedId) ==>
        && r == Failure(UniqueViolation(SubscriptionKey))
        && subscriptions == old(subscriptions)
      ensures !HasPair(old(subscriptions), userId, feedId) ==>
        && r == Success(old(lastSubscriptionId) + 1)
        && subscriptions == old(subscriptions) + [Subscription(r.value, userId, feedId, true, now)]
    {
      if HasPair(subscriptions, userId, feedId) {
        return Failure(UniqueViolation(SubscriptionKey));
      }
      var row := Subscription(lastSubscriptionId + 1, userId, feedId, true, now);
      SubscriptionsGrow(subscriptions, lastSubscriptionId, row);
      lastSubscriptionId, subscriptions := row.id, subscriptions + [row];
      r := Success(row.id);
    }

    /** `getUserSubscriptions`: the feeds the user has an active subscription to. */
    function GetUserSubscriptions(userId: int): (r: seq<Feed>)
      reads this
      ensures forall f :: f in r <==> f in feeds && SubscribedTo(subscriptions, userId, f.id)
      ensures multiset(r) <= multiset(feeds)
    {
      var subs := subscriptions;
      Filter(feeds, (f: Feed) => SubscribedTo(subs, userId, f.id))
    }

    /** `recordDelivery(userId, articleId, status = 'sent', errorMessage = null)`:
        always appends a fresh ledger row; nothing is unique per (user, article). */
    method RecordDelivery(userId: int, articleId: int, status: Option<string>, errorMessage: Option<string>, now: int)
      returns (id: nat)
      requires Valid()
      modifies this
      ensures Valid()
      ensures Counters() == old(Counters()).(delivery := lastDeliveryId)
      ensures users == old(users) && feeds == old(feeds)
      ensures subscriptions == old(subscriptions) && articles == old(articles)
      ensures id == old(lastDeliveryId) + 1 && lastDeliveryId == id
      ensures deliveries == old(deliveries) + [Delivery(id, userId, articleId, now, status.GetOr(DefaultStatus), errorMessage)]
    {
      lastDeliveryId := lastDeliveryId + 1;
      id := lastDeliveryId;
      deliveries := deliveries + [Delivery(id, userId, articleId, now, status.GetOr(DefaultStatus), errorMessage)];
    }
  }

  // An update that keeps each row's id and UNIQUE columns keeps the table valid.

  lemma UsersKeepOrder(before: seq<User>, after: seq<User>, last: nat)
    requires SortedBy(before, UserBefore) && forall u :: u in before ==> u.id <= last
    requires |after| == |before|
    requires forall i :: 0 <= i < |after| ==> after[i].id == before[i].id && after[i].lineUserId == before[i].lineUserId
    ensures SortedBy(after, UserBefore) && forall u :: u in after ==> u.id <= last
  {
    forall u | u in after
      ensures u.id <= last
    {
      var i :| 0 <= i < |after| && after[i] == u;
      assert before[i] in before;
    }
  }

  /** The feed table with `last_fetched` set to `now` on the rows with this id. */
  function Stamp(feeds: seq<Feed>, feedId: int, now: int): (r: seq<Feed>)
    ensures |r| == |feeds|
    ensures forall i :: 0 <= i < |r| ==>
      r[i] == if feeds[i].id == feedId then feeds[i].(lastFetched := Some(now)) else feeds[i]
  {
    seq(|feeds|, i requires 0 <= i < |feeds| =>
      if feeds[i].id == feedId then feeds[i].(lastFetched := Some(now)) else feeds[i])
  }

  /** The article table with the summary and keywords set, and `processed` raised,
      on the rows with this id. */
  function Summarized(articles: seq<Article>, articleId: int, summary: string, keywords: string): (r: seq<Article>)
    ensures |r| == |articles|
    ensures forall i :: 0 <= i < |r| ==>
      r[i] == if articles[i].id == articleId
              then articles[i].(summary := Some(summary), keywords := Some(keywords), processed := true)
              else articles[i]
  {
    seq(|articles|, i requires 0 <= i < |articles| =>
      if articles[i].id == articleId
      then articles[i].(summary := Some(summary), keywords := Some(keywords), processed := true)
      else articles[i])
  }

  lemma FeedsKeepOrder(before: seq<Feed>, after: seq<Feed>, last: nat)
    requires SortedBy(before, FeedBefore) && forall f :: f in before ==> f.id <= last
    requires |after| == |before|
    requires forall i :: 0 <= i < |after| ==> after[i].id == before[i].id && after[i].url == before[i].url
    ensures SortedBy(after, FeedBefore) && forall f :: f in after ==> f.id <= last
  {
    forall f | f in after
      ensures f.id <= last
    {
      var i :| 0 <= i < |after| && after[i] == f;
      assert before[i] in before;
    }
  }

  lemma ArticlesKeepOrder(before: seq<Article>, after: seq<Article>, last: nat)
    requires SortedBy(before, ArticleBefore) && forall a :: a in before ==> a.id <= last
    requires |after| == |before|
    requires forall i :: 0 <= i < |after| ==> after[i].id == before[i].id && after[i].url == before[i].url
    ensures SortedBy(after, ArticleBefore) && forall a :: a in after ==> a.id <= last
  {
    forall a | a in after
      ensures a.id <= last
    {
      var i :| 0 <= i < |after| && after[i] == a;
      assert before[i] in before;
    }
  }

  /** A row with the next id and a new (user, feed) pair keeps the table valid. */
  lemma SubscriptionsGrow(subs: seq<Subscription>, last: nat, s: Subscription)
    requires SortedBy(subs, SubscriptionBefore) && forall x :: x in subs ==> x.id <= last
    requires s.id == last + 1
    requires !HasPair(subs, s.userId, s.feedId)
    ensures SortedBy(subs + [s], SubscriptionBefore) && forall x :: x in subs + [s] ==> x.id <= last + 1
  {
    var t := subs + [s];
    forall i, j | 0 <= i < j < |t|
      ensures SubscriptionBefore(t[i], t[j])
    {
      assert t[i] == subs[i] && subs[i] in subs;
      if j < |subs| {
        assert t[j] == subs[j];
      }
    }
  }

  /** What `WHERE p ORDER BY published_at DESC LIMIT n` promises: at most `n` rows
      (no bound for a negative `n`), all matching, newest first, none left out that
      is newer than one kept, and every match when the limit is not reached. */
  ghost predicate IsNewestFirst(articles: seq<Article>, p: Article -> bool, n: int, r: seq<Article>) {
    && (0 <= n ==> |r| <= n)
    && (forall a :: a in r ==> a in articles && p(a))
    && SortedBy(r, Newest)
    && (forall a :: a in articles && p(a) && a !in r ==> forall i :: 0 <= i < |r| ==> r[i].publishedAt >= a.publishedAt)
    && (n < 0 || |r| < n ==> forall a :: a in articles && p(a) ==> a in r)
  }

  function NewestFirst(articles: seq<Article>, p: Article -> bool, n: int): (r: seq<Article>)
    ensures IsNewestFirst(articles, p, n, r)
  {
    var candidates := Filter(articles, p);
    TopIsTop(candidates, Newest, n);
    var r := Top(candidates, Newest, n);
    assert n < 0 || |r| < n ==> forall a :: a in candidates ==> a in r by {
      if n < 0 || |r| < n {
        SameElements(r, candidates);
      }
    }
    r
  }
}
