/**
 * The scheduler of `src/services/scheduler.js`: the named-job registry with its
 * init guard, the delivery pass (who is due, which articles each user gets, the
 * batch of LINE messages and the delivery ledger it writes), and the retention
 * sweep. Time is whole seconds since the epoch; each user's local clock reading,
 * the LINE transport and the date formatter are parameters.
 */
module Scheduler {
  import opened Wrappers
  import opened Text
  import opened Sorting
  import opened Database
  import opened LineMessaging

  const Day := 86400
  /** `LIMIT 5` of the per-user article query. */
  const MaxArticlesPerUser := 5
  /** The half-width, in minutes, of the delivery window around a user's delivery time. */
  const WindowMinutes := 30

  // ------------------------------------------------------------ delivery time

  /** `Number(s)` on a piece of a `"HH:MM"` setting: surrounding whitespace is
      ignored, the empty string is 0, a run of decimal digits is its value, and
      anything else is `NaN` (`None`). */
  function ToNumber(s: string): (r: Option<nat>)
    ensures AllDigits(s) && s != [] ==> r == Some(DigitsValue(s))
  {
    var t := Trim(s);
    assert AllDigits(s) && s != [] ==> t == s by {
      if AllDigits(s) && s != [] {
        TrimKeepsDigits(s);
      }
    }
    if t == [] then Some(0)
    else if AllDigits(t) then Some(DigitsValue(t))
    else None
  }

  /** Digits are not whitespace, so `trim` leaves a digit string alone. */
  lemma TrimKeepsDigits(s: string)
    requires AllDigits(s) && s != []
    ensures Trim(s) == s
  {
    assert !IsSpace(s[0]) && !IsSpace(s[|s| - 1]);
    TrimTrimmed(s);
  }

  /** `delivery_time.split(':').map(Number)`, destructured into hour and minute:
      a missing minute is `undefined`, whose `Number` is `NaN`. */
  function DeliveryClock(deliveryTime: string): (r: Option<(nat, nat)>)
  {
    var parts := SplitOn(deliveryTime, ':');
    var hour := ToNumber(parts[0]);
    var minute := if |parts| >= 2 then ToNumber(parts[1]) else None;
    if hour.Some? && minute.Some? then Some((hour.value, minute.value)) else None
  }

  /** `isDeliveryTime`: the user's local minute of the day is within 30 minutes
      of the delivery time, on a straight line with no wrap at midnight. A `NaN`
      part makes every comparison false. */
  predicate IsDeliveryTime(hour: int, minute: int, deliveryTime: string) {
    match DeliveryClock(deliveryTime)
    case None => false
    case Some((h, m)) => Abs(hour * 60 + minute - (h * 60 + m)) <= WindowMinutes
  }

  function Abs(x: int): nat {
    if x < 0 then -x else x
  }

  /** Two decimal digits, as a stored `"HH:MM"` setting writes each part. */
  function TwoDigits(n: nat): (r: string)
    requires n < 100
    ensures |r| == 2 && AllDigits(r) && ':' !in r
  {
    [DigitChar(n / 10), DigitChar(n % 10)]
  }

  /** The `"HH:MM"` text of a clock reading. */
  function ClockText(h: nat, m: nat): string
    requires h < 100 && m < 100
  {
    TwoDigits(h) + ":" + TwoDigits(m)
  }

  /** Reading back a two-digit part gives its value. */
  lemma ToNumberTwoDigits(n: nat)
    requires n < 100
    ensures ToNumber(TwoDigits(n)) == Some(n)
  {
    var s := TwoDigits(n);
    assert s[..1] == [DigitChar(n / 10)];
    assert DigitsValue(s[..1]) == n / 10;
  }

  /** Reading a written `"HH:MM"` setting gives back the hour and the minute. */
  lemma DeliveryClockRoundTrip(h: nat, m: nat)
    requires h < 100 && m < 100
    ensures DeliveryClock(ClockText(h, m)) == Some((h, m))
  {
    var parts := [TwoDigits(h), TwoDigits(m)];
    assert Join(parts, [':']) == ClockText(h, m) by {
      assert Join(parts[1..], [':']) == TwoDigits(m);
    }
    SplitOnJoin(parts, ':');
    ToNumberTwoDigits(h);
    ToNumberTwoDigits(m);
  }

  /** The delivery window for a well-formed setting: within 30 minutes either way
      of the delivery minute of the day. */
  lemma DeliveryWindow(hour: int, minute: int, h: nat, m: nat)
    requires h < 100 && m < 100
    ensures IsDeliveryTime(hour, minute, ClockText(h, m)) <==>
      h * 60 + m - WindowMinutes <= hour * 60 + minute <= h * 60 + m + WindowMinutes
  {
    DeliveryClockRoundTrip(h, m);
  }

  /** 08:30 and 07:30 are inside an 08:00 window, 08:31 is not, and 23:50 is not
      inside a 00:10 window: the window does not wrap at midnight. */
  lemma DeliveryWindowExamples()
    ensures IsDeliveryTime(8, 30, "08:00") && IsDeliveryTime(7, 30, "08:00")
    ensures !IsDeliveryTime(8, 31, "08:00")
    ensures !IsDeliveryTime(23, 50, "00:10")
  {
    assert ClockText(8, 0) == "08:00";
    assert ClockText(0, 10) == "00:10";
    DeliveryWindow(8, 30, 8, 0);
    DeliveryWindow(7, 30, 8, 0);
    DeliveryWindow(8, 31, 8, 0);
    DeliveryWindow(23, 50, 0, 10);
  }

  /** A setting with no `:` has no minute, so its user is never due. */
  lemma NoMinuteNeverDue(hour: int, minute: int, deliveryTime: string)
    requires ':' !in deliveryTime
    ensures !IsDeliveryTime(hour, minute, deliveryTime)
  {
  }

  // ----------------------------------------------------- articles for a user

  /** `a.published_at > datetime('now', '-24 hours')`, read as the time comparison
      it is meant to be. */
  predicate Recent(publishedAt: int, now: int) {
    publishedAt > now - Day
  }

  /** A `delivery_history` row of any status for this user and article. */
  predicate Delivered(deliveries: seq<Delivery>, userId: int, articleId: int) {
    exists d :: d in deliveries && d.userId == userId && d.articleId == articleId
  }

  /** The `WHERE` of `getArticlesForUser`, with its joins: the article's feed exists
      (its own `active` flag is not read), the user has an active subscription to
      it, the article is processed, has a summary, is recent, and has no delivery
      row for this user. */
  predicate Eligible(feeds: seq<Feed>, subscriptions: seq<Subscription>, deliveries: seq<Delivery>,
                     userId: int, now: int, a: Article) {
    && a.feedId.Some?
    && (exists f :: f in feeds && f.id == a.feedId.value)
    && SubscribedTo(subscriptions, userId, a.feedId.value)
    && a.processed && a.summary.Some?
    && Recent(a.publishedAt, now)
    && !Delivered(deliveries, userId, a.id)
  }

  function EligibleFor(feeds: seq<Feed>, subscriptions: seq<Subscription>, deliveries: seq<Delivery>,
                       userId: int, now: int): Article -> bool {
    (a: Article) => Eligible(feeds, subscriptions, deliveries, userId, now, a)
  }

  /** `getArticlesForUser`: at most five eligible articles, newest first, none left
      out that is newer than one returned, all of them when fewer than five are
      eligible, each with the name of its feed. */
  function ArticlesForUser(feeds: seq<Feed>, subscriptions: seq<Subscription>, articles: seq<Article>,
                           deliveries: seq<Delivery>, userId: int, now: int): (r: seq<FeedArticle>)
    ensures IsNewestFirst(articles, EligibleFor(feeds, subscriptions, deliveries, userId, now),
                          MaxArticlesPerUser, ArticlesOf(r))
    ensures |r| <= MaxArticlesPerUser
    ensures forall i :: 0 <= i < |r| ==> r[i].feedName.Some?
  {
    var chosen := NewestFirst(articles, EligibleFor(feeds, subscriptions, deliveries, userId, now), MaxArticlesPerUser);
    JoinedArticles(feeds, chosen);
    var r := Joined(feeds, chosen);
    assert forall i :: 0 <= i < |r| ==> r[i].feedName.Some? by {
      forall i | 0 <= i < |r|
        ensures r[i].feedName.Some?
      {
        assert chosen[i] in chosen;
      }
    }
    r
  }

  /** Each row of a user's batch is an eligible article of the table. */
  lemma BatchEligible(feeds: seq<Feed>, subscriptions: seq<Subscription>, articles: seq<Article>,
                      deliveries: seq<Delivery>, userId: int, now: int)
    ensures var r := ArticlesForUser(feeds, subscriptions, articles, deliveries, userId, now);
      && |r| <= MaxArticlesPerUser
      && forall i :: 0 <= i < |r| ==>
           r[i].article in articles && Eligible(feeds, subscriptions, deliveries, userId, now, r[i].article)
  {
    var r := ArticlesForUser(feeds, subscriptions, articles, deliveries, userId, now);
    forall i | 0 <= i < |r|
      ensures r[i].article in articles && Eligible(feeds, subscriptions, deliveries, userId, now, r[i].article)
    {
      assert ArticlesOf(r)[i] in ArticlesOf(r);
    }
  }

  /** An article without a feed is never delivered. */
  lemma NoFeedNeverSelected(feeds: seq<Feed>, subscriptions: seq<Subscription>, articles: seq<Article>,
                            deliveries: seq<Delivery>, userId: int, now: int, a: Article)
    requires a.feedId.None?
    ensures forall i :: 0 <= i < |ArticlesForUser(feeds, subscriptions, articles, deliveries, userId, now)| ==>
      ArticlesForUser(feeds, subscriptions, articles, deliveries, userId, now)[i].article != a
  {
    BatchEligible(feeds, subscriptions, articles, deliveries, userId, now);
  }

  /** Ledger rows of other users do not change what a user is offered. */
  lemma {:induction false} OthersLedgerIgnored(feeds: seq<Feed>, subscriptions: seq<Subscription>, articles: seq<Article>,
                                               deliveries: seq<Delivery>, extra: seq<Delivery>, userId: int, now: int)
    requires forall d :: d in extra ==> d.userId != userId
    ensures ArticlesForUser(feeds, subscriptions, articles, deliveries + extra, userId, now) ==
            ArticlesForUser(feeds, subscriptions, articles, deliveries, userId, now)
  {
    var p := EligibleFor(feeds, subscriptions, deliveries + extra, userId, now);
    var q := EligibleFor(feeds, subscriptions, deliveries, userId, now);
    forall a | a in articles
      ensures p(a) == q(a)
    {
      assert Delivered(deliveries + extra, userId, a.id) <==> Delivered(deliveries, userId, a.id) by {
        if Delivered(deliveries + extra, userId, a.id) {
          var d :| d in deliveries + extra && d.userId == userId && d.articleId == a.id;
          assert d in deliveries;
        }
      }
    }
    FilterCongruent(articles, p, q);
  }

  // --------------------------------------------- the finding at scheduler.js:176

  /** A timestamp as the text SQLite compares: the date, the character after it,
      then the time of day. Both layouts are fixed-width with the date first, so
      text order is this lexicographic order (for four-digit years). */
  datatype StampText = StampText(date: int, separator: char, clock: int)

  /** `published_at` as stored: the ISO text `YYYY-MM-DDTHH:MM:SS.sssZ`. */
  function IsoText(t: int): StampText {
    StampText(t / Day, 'T', t % Day)
  }

  /** `datetime(...)`: the SQLite text `YYYY-MM-DD HH:MM:SS`. */
  function SqliteText(t: int): StampText {
    StampText(t / Day, ' ', t % Day)
  }

  predicate TextAfter(a: StampText, b: StampText) {
    || a.date > b.date
    || (a.date == b.date && (a.separator > b.separator || (a.separator == b.separator && a.clock > b.clock)))
  }

  /** The recency test as written: ISO text compared with SQLite text. */
  predicate PublishedAfterAsWritten(publishedAt: int, now: int) {
    TextAfter(IsoText(publishedAt), SqliteText(now - Day))
  }

  /** As written the test only compares calendar days: `'T'` sorts after `' '`, so
      every time on the cutoff's own day passes. */
  lemma AsWrittenComparesDays(publishedAt: int, now: int)
    ensures PublishedAfterAsWritten(publishedAt, now) <==> publishedAt / Day >= (now - Day) / Day
  {
  }

  /** An article published at 00:30 on one day is offered at 12:00 on the next,
      35.5 hours later. */
  lemma AsWrittenAdmitsOlderThanADay()
    ensures PublishedAfterAsWritten(1800, Day + 43200)
    ensures !Recent(1800, Day + 43200)
  {
    assert (Day + 43200 - Day) / Day == 0;
  }

  /** Everything the intended test admits, the written one admits too, and the
      written one admits nothing older than two days. */
  lemma AsWrittenBounds(publishedAt: int, now: int)
    ensures Recent(publishedAt, now) ==> PublishedAfterAsWritten(publishedAt, now)
    ensures PublishedAfterAsWritten(publishedAt, now) ==> publishedAt > now - 2 * Day
  {
    AsWrittenComparesDays(publishedAt, now);
  }

  // ------------------------------------------------------------ one batch

  /** The header message: the article count, then a rule. */
  function Header(count: nat): string {
    "📰 今日のニュース (" + NatToString(count) + "件)\n" + Divider
  }

  const Divider := "━━━━━━━━━━━━━━━━"

  /** `feed_name || 'ニュース'`. */
  function SourceName(a: FeedArticle): (r: string)
    ensures Truthy(a.feedName) ==> r == a.feedName.value
    ensures !Truthy(a.feedName) ==> r == "ニュース"
  {
    if Truthy(a.feedName) then a.feedName.value else "ニュース"
  }

  /** `summary || '要約が利用できません'`. */
  function SummaryText(a: FeedArticle): (r: string)
    ensures Truthy(a.article.summary) ==> r == a.article.summary.value
    ensures !Truthy(a.article.summary) ==> r == "要約が利用できません"
  {
    if Truthy(a.article.summary) then a.article.summary.value else "要約が利用できません"
  }

  /** The keyword line: the tag and the keywords, or nothing. */
  function KeywordLine(a: FeedArticle): (r: string)
    ensures Truthy(a.article.keywords) ==> r == "🏷️ " + a.article.keywords.value
    ensures !Truthy(a.article.keywords) ==> r == ""
  {
    if Truthy(a.article.keywords) then "🏷️ " + a.article.keywords.value else ""
  }

  /** `formatArticleMessage`: title; publication time and source; summary;
      keyword line; URL; rule. `timeStr` is the formatted publication time. */
  function FormatArticleMessage(a: FeedArticle, timeStr: string): string {
    MessageHead(a, timeStr) + MessageBody(a) + MessageTail(a)
  }

  /** The title line, the time and source line, and the summary tag. */
  function MessageHead(a: FeedArticle, timeStr: string): string {
    "📄 " + a.article.title + "\n\n⏰ " + timeStr + " | 📡 " + SourceName(a) + "\n\n📝 "
  }

  /** The summary and the keyword line. */
  function MessageBody(a: FeedArticle): string {
    SummaryText(a) + "\n\n" + KeywordLine(a)
  }

  /** The link line and the closing rule. */
  function MessageTail(a: FeedArticle): string {
    "\n\n🔗 " + a.article.url + "\n\n" + Divider
  }

  /** An article message opens with the title, the time and the source, closes
      with the link and the rule, and carries the summary and the keyword line
      between them. */
  lemma ArticleMessageLayout(a: FeedArticle, timeStr: string)
    ensures var r := FormatArticleMessage(a, timeStr);
      && StartsWith(r, MessageHead(a, timeStr))
      && EndsWith(r, MessageTail(a))
      && Contains(r, MessageBody(a))
  {
    ThreeParts(MessageHead(a, timeStr), MessageBody(a), MessageTail(a));
  }

  /** The article message builder, as applied to each row of a batch. */
  function ArticleMessage(timeOf: int -> string): FeedArticle -> Message {
    (a: FeedArticle) => TextMessage(FormatArticleMessage(a, timeOf(a.article.publishedAt)))
  }

  /** The messages of one batch: the header, then one message per article in order. */
  function Batch(articles: seq<FeedArticle>, timeOf: int -> string): (r: seq<Message>)
    ensures |r| == |articles| + 1
    ensures r[0] == TextMessage(Header(|articles|))
  {
    [TextMessage(Header(|articles|))] + Map(articles, ArticleMessage(timeOf))
  }

  /** After the header, the batch holds each article's message, in order. */
  lemma BatchMessages(articles: seq<FeedArticle>, timeOf: int -> string)
    ensures forall i :: 0 <= i < |articles| ==>
      Batch(articles, timeOf)[i + 1] == TextMessage(FormatArticleMessage(articles[i], timeOf(articles[i].article.publishedAt)))
  {
  }

  /** The first `n` article messages of a batch after its header. */
  function BatchPrefix(articles: seq<FeedArticle>, n: nat, timeOf: int -> string): (r: seq<Message>)
    requires n <= |articles|
    ensures |r| == n + 1
  {
    [TextMessage(Header(|articles|))] + Map(articles[..n], ArticleMessage(timeOf))
  }

  /** Adding the next article's message extends the prefix by one. */
  lemma BatchPrefixStep(articles: seq<FeedArticle>, n: nat, timeOf: int -> string)
    requires n < |articles|
    ensures BatchPrefix(articles, n + 1, timeOf) ==
      BatchPrefix(articles, n, timeOf) + [TextMessage(FormatArticleMessage(articles[n], timeOf(articles[n].article.publishedAt)))]
  {
    PrefixSnoc(articles, n);
    MapSnoc(articles[..n], articles[n], ArticleMessage(timeOf));
  }

  /** The whole prefix is the batch. */
  lemma BatchPrefixWhole(articles: seq<FeedArticle>, timeOf: int -> string)
    ensures BatchPrefix(articles, |articles|, timeOf) == Batch(articles, timeOf)
  {
    assert articles[..|articles|] == articles;
  }

  /** The ledger rows `recordDelivery` appends for a batch, one per article in
      order, with consecutive ids from `firstId`. */
  function Ledger(firstId: nat, userId: int, articles: seq<FeedArticle>, status: string,
                  error: Option<string>, now: int): (r: seq<Delivery>)
    ensures |r| == |articles|
    ensures forall i :: 0 <= i < |r| ==>
      r[i] == Delivery(firstId + i, userId, articles[i].article.id, now, status, error)
  {
    seq(|articles|, i requires 0 <= i < |articles| =>
      Delivery(firstId + i, userId, articles[i].article.id, now, status, error))
  }

  lemma LedgerSnoc(firstId: nat, userId: int, articles: seq<FeedArticle>, a: FeedArticle, status: string,
                   error: Option<string>, now: int)
    ensures Ledger(firstId, userId, articles + [a], status, error, now) ==
      Ledger(firstId, userId, articles, status, error, now) + [Delivery(firstId + |articles|, userId, a.article.id, now, status, error)]
  {
    var l := Ledger(firstId, userId, articles, status, error, now);
    var r := l + [Delivery(firstId + |articles|, userId, a.article.id, now, status, error)];
    assert forall i :: 0 <= i < |articles| ==> (articles + [a])[i] == articles[i];
    assert Ledger(firstId, userId, articles + [a], status, error, now) == r;
  }

  /** After a failed send every article of the batch has both a `sent` and a
      `failed` row for the user. */
  lemma FailedBatchLeavesBoth(firstId: nat, userId: int, articles: seq<FeedArticle>, error: string, now: int,
                              rows: seq<Delivery>)
    requires rows == Ledger(firstId, userId, articles, "sent", None, now) +
                     Ledger(firstId + |articles|, userId, articles, "failed", Some(error), now)
    ensures forall a :: a in articles ==>
      && (exists d :: d in rows && d.userId == userId && d.articleId == a.article.id && d.status == "sent")
      && (exists d :: d in rows && d.userId == userId && d.articleId == a.article.id && d.status == "failed")
  {
    var sent := Ledger(firstId, userId, articles, "sent", None, now);
    var failed := Ledger(firstId + |articles|, userId, articles, "failed", Some(error), now);
    forall a | a in articles
      ensures exists d :: d in rows && d.userId == userId && d.articleId == a.article.id && d.status == "sent"
      ensures exists d :: d in rows && d.userId == userId && d.articleId == a.article.id && d.status == "failed"
    {
      var i :| 0 <= i < |articles| && articles[i] == a;
      assert rows[i] == sent[i];
      assert rows[|sent| + i] == failed[i];
    }
  }

  /** `recordDelivery` for the `i`th article of a batch whose rows so far follow
      `before` with ids from `firstId`: the ledger grows by that article's row. */
  method RecordRow(store: Store, user: User, articles: seq<FeedArticle>, i: nat, status: string,
                   error: Option<string>, now: int, ghost before: seq<Delivery>, ghost firstId: nat)
    requires store.Valid() && i < |articles|
    requires store.lastDeliveryId == firstId - 1 + i
    requires store.deliveries == before + Ledger(firstId, user.id, articles[..i], status, error, now)
    modifies store
    ensures store.Valid()
    ensures store.users == old(store.users) && store.feeds == old(store.feeds)
    ensures store.subscriptions == old(store.subscriptions) && store.articles == old(store.articles)
    ensures store.lastDeliveryId == firstId + i
    ensures store.Counters() == old(store.Counters()).(delivery := store.lastDeliveryId)
    ensures store.deliveries == before + Ledger(firstId, user.id, articles[..i + 1], status, error, now)
  {
    LedgerStep(before, firstId, user.id, articles, i, status, error, now);
    var _ := store.RecordDelivery(user.id, articles[i].article.id, Some(status), error, now);
  }

  /** The catch block of `sendArticlesToUser`: a `failed` row with the error
      message for every article of the batch, in order. */
  method RecordFailures(store: Store, user: User, articles: seq<FeedArticle>, error: string, now: int)
    requires store.Valid()
    modifies store
    ensures store.Valid()
    ensures store.users == old(store.users) && store.feeds == old(store.feeds)
    ensures store.subscriptions == old(store.subscriptions) && store.articles == old(store.articles)
    ensures store.lastDeliveryId == old(store.lastDeliveryId) + |articles|
    ensures store.Counters() == old(store.Counters()).(delivery := store.lastDeliveryId)
    ensures store.deliveries == old(store.deliveries) +
      Ledger(old(store.lastDeliveryId) + 1, user.id, articles, "failed", Some(error), now)
  {
    ghost var before := store.deliveries;
    ghost var first := store.lastDeliveryId + 1;
    for i := 0 to |articles|
      invariant store.Valid()
      invariant store.users == old(store.users) && store.feeds == old(store.feeds)
      invariant store.subscriptions == old(store.subscriptions) && store.articles == old(store.articles)
      invariant store.lastDeliveryId == first - 1 + i
      invariant store.Counters() == old(store.Counters()).(delivery := store.lastDeliveryId)
      invariant store.deliveries == before + Ledger(first, user.id, articles[..i], "failed", Some(error), now)
    {
      RecordRow(store, user, articles, i, "failed", Some(error), now, before, first);
    }
    assert articles[..|articles|] == articles;
  }

  /** The rows `sendArticlesToUser` appends: a `sent` row per article, then, when
      the send fails, a `failed` row with the error per article. */
  function SendLedger(firstId: nat, userId: int, articles: seq<FeedArticle>, transport: Outcome<string>, now: int): seq<Delivery> {
    Ledger(firstId, userId, articles, "sent", None, now) +
    (if transport.Fail?
     then Ledger(firstId + |articles|, userId, articles, "failed", Some(transport.error), now)
     else [])
  }

  /** One more recorded row extends the ledger by the next article's row. */
  lemma LedgerStep(before: seq<Delivery>, firstId: nat, userId: int, articles: seq<FeedArticle>, i: nat,
                   status: string, error: Option<string>, now: int)
    requires i < |articles|
    ensures before + Ledger(firstId, userId, articles[..i + 1], status, error, now) ==
      (before + Ledger(firstId, userId, articles[..i], status, error, now)) +
      [Delivery(firstId + i, userId, articles[i].article.id, now, status, error)]
  {
    PrefixSnoc(articles, i);
    LedgerSnoc(firstId, userId, articles[..i], articles[i], status, error, now);
    AppendAssoc(before, Ledger(firstId, userId, articles[..i], status, error, now),
                [Delivery(firstId + i, userId, articles[i].article.id, now, status, error)]);
  }

  /** A successful send leaves only the `sent` rows. */
  lemma SentOnly(before: seq<Delivery>, after: seq<Delivery>, firstId: nat, userId: int,
                 articles: seq<FeedArticle>, now: int)
    requires after == before + Ledger(firstId, userId, articles, "sent", None, now)
    ensures after == before + SendLedger(firstId, userId, articles, Pass, now)
  {
    assert SendLedger(firstId, userId, articles, Pass, now) == Ledger(firstId, userId, articles, "sent", None, now) + [];
  }

  /** A failed send leaves the `sent` rows followed by the `failed` rows. */
  lemma SentThenFailed(before: seq<Delivery>, sent: seq<Delivery>, after: seq<Delivery>, firstId: nat, failedId: nat,
                       userId: int, articles: seq<FeedArticle>, error: string, now: int)
    requires failedId == firstId + |articles|
    requires sent == before + Ledger(firstId, userId, articles, "sent", None, now)
    requires after == sent + Ledger(failedId, userId, articles, "failed", Some(error), now)
    ensures after == before + SendLedger(firstId, userId, articles, Fail(error), now)
  {
    AppendAssoc(before, Ledger(firstId, userId, articles, "sent", None, now),
                Ledger(firstId + |articles|, userId, articles, "failed", Some(error), now));
  }

  /** The loop of `sendArticlesToUser`: the header, then one message per article,
      with a `sent` row recorded as each article's message is added. */
  method ComposeAndRecord(store: Store, user: User, articles: seq<FeedArticle>, timeOf: int -> string, now: int)
    returns (messages: seq<Message>)
    requires store.Valid()
    modifies store
    ensures store.Valid()
    ensures store.users == old(store.users) && store.feeds == old(store.feeds)
    ensures store.subscriptions == old(store.subscriptions) && store.articles == old(store.articles)
    ensures store.lastDeliveryId == old(store.lastDeliveryId) + |articles|
    ensures store.Counters() == old(store.Counters()).(delivery := store.lastDeliveryId)
    ensures messages == Batch(articles, timeOf)
    ensures store.deliveries == old(store.deliveries) +
      Ledger(old(store.lastDeliveryId) + 1, user.id, articles, "sent", None, now)
  {
    ghost var before := store.deliveries;
    ghost var first := store.lastDeliveryId + 1;
    messages := [TextMessage(Header(|articles|))];
    for i := 0 to |articles|
      invariant store.Valid()
      invariant store.users == old(store.users) && store.feeds == old(store.feeds)
      invariant store.subscriptions == old(store.subscriptions) && store.articles == old(store.articles)
      invariant store.lastDeliveryId == first - 1 + i
      invariant store.Counters() == old(store.Counters()).(delivery := store.lastDeliveryId)
      invariant store.deliveries == before + Ledger(first, user.id, articles[..i], "sent", None, now)
      invariant messages == BatchPrefix(articles, i, timeOf)
    {
      BatchPrefixStep(articles, i, timeOf);
      messages := messages + [TextMessage(FormatArticleMessage(articles[i], timeOf(articles[i].article.publishedAt)))];
      RecordRow(store, user, articles, i, "sent", None, now, before, first);
    }
    assert articles[..|articles|] == articles;
    BatchPrefixWhole(articles, timeOf);
  }

  /** The failure branch of `sendArticlesToUser`: after the `sent` rows, one
      `failed` row with the error per article. */
  method RecordFailedSend(store: Store, user: User, articles: seq<FeedArticle>, error: string, now: int,
                          ghost before: seq<Delivery>, ghost first: nat)
    requires store.Valid()
    requires store.lastDeliveryId + 1 == first + |articles|
    requires store.deliveries == before + Ledger(first, user.id, articles, "sent", None, now)
    modifies store
    ensures store.Valid()
    ensures store.users == old(store.users) && store.feeds == old(store.feeds)
    ensures store.subscriptions == old(store.subscriptions) && store.articles == old(store.articles)
    ensures store.lastDeliveryId == old(store.lastDeliveryId) + |articles|
    ensures store.Counters() == old(store.Counters()).(delivery := store.lastDeliveryId)
    ensures store.deliveries == before + SendLedger(first, user.id, articles, Fail(error), now)
  {
    ghost var sent := store.deliveries;
    ghost var failedId := store.lastDeliveryId + 1;
    RecordFailures(store, user, articles, error, now);
    SentThenFailed(before, sent, store.deliveries, first, failedId, user.id, articles, error, now);
  }

  /** `sendArticlesToUser`: builds the batch, appends a `sent` row per article
      before the transport call, and on a failed send appends a `failed` row with
      the error for every article and reports false. `transport` is the outcome
      of the send call. */
  method SendArticlesToUser(store: Store, user: User, articles: seq<FeedArticle>, timeOf: int -> string,
                            transport: Outcome<string>, now: int)
    returns (ok: bool, messages: seq<Message>)
    requires store.Valid()
    modifies store
    ensures store.Valid()
    ensures store.users == old(store.users) && store.feeds == old(store.feeds)
    ensures store.subscriptions == old(store.subscriptions) && store.articles == old(store.articles)
    ensures ok <==> transport.Pass?
    ensures messages == Batch(articles, timeOf)
    ensures store.deliveries == old(store.deliveries) + SendLedger(old(store.lastDeliveryId) + 1, user.id, articles, transport, now)
    ensures store.lastDeliveryId == old(store.lastDeliveryId) + |SendLedger(old(store.lastDeliveryId) + 1, user.id, articles, transport, now)|
    ensures store.Counters() == old(store.Counters()).(delivery := store.lastDeliveryId)
  {
    ghost var first := store.lastDeliveryId + 1;
    messages := ComposeAndRecord(store, user, articles, timeOf, now);
    if transport.Pass? {
      SentOnly(old(store.deliveries), store.deliveries, first, user.id, articles, now);
      ok := true;
    } else {
      RecordFailedSend(store, user, articles, transport.error, now, old(store.deliveries), first);
      ok := false;
    }
  }

  // ------------------------------------------------------------ the delivery pass

  /** `SELECT * FROM users WHERE active = 1`, in rowid order. */
  predicate IsActive(u: User) { u.active }

  function ActiveUsers(users: seq<User>): (r: seq<User>)
    ensures forall u :: u in r <==> u in users && u.active
  {
    Filter(users, IsActive)
  }

  /** The collaborators of one pass: the clock, each user's local hour and minute
      (`None` when converting to the user's time zone throws, as it does for a name
      that is not a time zone), whether the per-user article query throws, the
      outcome of each user's send, and the publication-time formatter. */
  datatype PassEnv = PassEnv(
    now: int, localClock: User -> Option<(int, int)>, queryFails: User -> bool,
    transport: User -> Outcome<string>, timeOf: int -> string)

  /** What the pass does for one user. */
  datatype UserOutcome = NotDue | NoArticles | Pushed(count: nat) | Failed

  /** A due user's outcome once the article query has answered with `batch`. */
  function Decide(env: PassEnv, u: User, batch: seq<FeedArticle>): (r: UserOutcome)
    ensures r.Pushed? <==> |batch| != 0 && env.transport(u).Pass?
    ensures r.Pushed? ==> r.count == |batch|
    ensures r == NoArticles <==> |batch| == 0
  {
    if |batch| == 0 then NoArticles
    else if env.transport(u).Pass? then Pushed(|batch|)
    else Failed
  }

  /** The loop body of `deliverArticlesToUsers` for one user, against the tables. */
  function OutcomeOf(feeds: seq<Feed>, subscriptions: seq<Subscription>, articles: seq<Article>,
                     deliveries: seq<Delivery>, env: PassEnv, u: User): (r: UserOutcome)
    ensures r.Pushed? ==> 1 <= r.count <= MaxArticlesPerUser
    ensures env.localClock(u).None? ==> r == Failed
    ensures env.localClock(u).Some? ==>
      (r != NotDue <==> IsDeliveryTime(env.localClock(u).value.0, env.localClock(u).value.1, u.deliveryTime))
  {
    if env.localClock(u).None? then Failed
    else if !IsDeliveryTime(env.localClock(u).value.0, env.localClock(u).value.1, u.deliveryTime) then NotDue
    else if env.queryFails(u) then Failed
    else Decide(env, u, ArticlesForUser(feeds, subscriptions, articles, deliveries, u.id, env.now))
  }

  function OutcomeFor(feeds: seq<Feed>, subscriptions: seq<Subscription>, articles: seq<Article>,
                      deliveries: seq<Delivery>, env: PassEnv): User -> UserOutcome {
    (u: User) => OutcomeOf(feeds, subscriptions, articles, deliveries, env, u)
  }

  /** The `deliveryResults` object. */
  datatype DeliveryResults = DeliveryResults(
    totalUsers: nat, successfulDeliveries: nat, failedDeliveries: nat, totalArticlesSent: nat)

  predicate Succeeded(o: UserOutcome) { o.Pushed? }

  predicate CountedFailed(o: UserOutcome) { o.Failed? }

  /** One user's effect on the counters: a user who is not due or has nothing new
      changes none. */
  function Count(r: DeliveryResults, o: UserOutcome): DeliveryResults {
    match o
    case Pushed(count) =>
      r.(successfulDeliveries := r.successfulDeliveries + 1, totalArticlesSent := r.totalArticlesSent + count)
    case Failed => r.(failedDeliveries := r.failedDeliveries + 1)
    case _ => r
  }

  /** The counters after the users with these outcomes, in order. */
  function Tally(total: nat, outcomes: seq<UserOutcome>): (r: DeliveryResults)
    ensures r.totalUsers == total
    ensures r.successfulDeliveries == |Filter(outcomes, Succeeded)|
    ensures r.failedDeliveries == |Filter(outcomes, CountedFailed)|
  {
    if outcomes == [] then DeliveryResults(total, 0, 0, 0)
    else
      var init := outcomes[..|outcomes| - 1];
      var last := outcomes[|outcomes| - 1];
      assert outcomes == init + [last];
      FilterSnoc(init, last, Succeeded);
      FilterSnoc(init, last, CountedFailed);
      Count(Tally(total, init), last)
  }

  /** No user is counted twice. */
  lemma {:induction false} TallyCounted(total: nat, outcomes: seq<UserOutcome>)
    ensures Tally(total, outcomes).successfulDeliveries + Tally(total, outcomes).failedDeliveries <= |outcomes|
  {
    if outcomes != [] {
      var init := outcomes[..|outcomes| - 1];
      var last := outcomes[|outcomes| - 1];
      assert outcomes == init + [last];
      TallySnoc(total, init, last);
      TallyCounted(total, init);
    }
  }

  /** When every batch holds one to five articles, the articles sent are between
      one and five per successful user. */
  lemma {:induction false} TallySent(total: nat, outcomes: seq<UserOutcome>)
    requires forall i :: 0 <= i < |outcomes| && outcomes[i].Pushed? ==> 1 <= outcomes[i].count <= MaxArticlesPerUser
    ensures Tally(total, outcomes).successfulDeliveries <= Tally(total, outcomes).totalArticlesSent <=
      MaxArticlesPerUser * Tally(total, outcomes).successfulDeliveries
  {
    if outcomes != [] {
      var init := outcomes[..|outcomes| - 1];
      var last := outcomes[|outcomes| - 1];
      assert outcomes == init + [last];
      TallySnoc(total, init, last);
      assert forall i :: 0 <= i < |init| ==> init[i] == outcomes[i];
      TallySent(total, init);
    }
  }

  lemma TallySnoc(total: nat, outcomes: seq<UserOutcome>, o: UserOutcome)
    ensures Tally(total, outcomes + [o]) == Count(Tally(total, outcomes), o)
  {
    assert (outcomes + [o])[..|outcomes|] == outcomes;
  }

  /** Every user's outcome of a pass respects the five-article cap, so the pass
      sends between one and five articles per successful user. */
  lemma PassCounts(feeds: seq<Feed>, subscriptions: seq<Subscription>, articles: seq<Article>,
                   deliveries: seq<Delivery>, env: PassEnv, users: seq<User>)
    ensures var r := Tally(|users|, Map(users, OutcomeFor(feeds, subscriptions, articles, deliveries, env)));
      && r.successfulDeliveries + r.failedDeliveries <= r.totalUsers
      && r.successfulDeliveries <= r.totalArticlesSent <= MaxArticlesPerUser * r.successfulDeliveries
  {
    var os := Map(users, OutcomeFor(feeds, subscriptions, articles, deliveries, env));
    assert forall i :: 0 <= i < |os| && os[i].Pushed? ==> 1 <= os[i].count <= MaxArticlesPerUser;
    TallyCounted(|users|, os);
    TallySent(|users|, os);
  }

  /** The ledger grown by one more user's rows still holds only rows of the users
      handled so far, after the rows that were there before the pass. */
  lemma NewRowsStep(before: seq<Delivery>, mid: seq<Delivery>, added: seq<Delivery>, done: seq<User>, u: User)
    requires |before| <= |mid| && mid[..|before|] == before
    requires forall d :: d in mid[|before|..] ==> exists kk :: 0 <= kk < |done| && done[kk].id == d.userId
    requires forall d :: d in added ==> d.userId == u.id
    ensures |before| <= |mid + added| && (mid + added)[..|before|] == before
    ensures forall d :: d in (mid + added)[|before|..] ==>
      exists kk :: 0 <= kk < |done + [u]| && (done + [u])[kk].id == d.userId
  {
    assert (mid + added)[|before|..] == mid[|before|..] + added;
    forall d | d in (mid + added)[|before|..]
      ensures exists kk :: 0 <= kk < |done + [u]| && (done + [u])[kk].id == d.userId
    {
      if d in added {
        assert (done + [u])[|done|] == u;
      } else {
        var kk :| 0 <= kk < |done| && done[kk].id == d.userId;
        assert (done + [u])[kk] == done[kk];
      }
    }
  }

  /** Every ledger row of a batch is the batch user's. */
  lemma LedgerOwner(firstId: nat, userId: int, articles: seq<FeedArticle>, status: string,
                    error: Option<string>, now: int)
    ensures forall d :: d in Ledger(firstId, userId, articles, status, error, now) ==> d.userId == userId
  {
    var rows := Ledger(firstId, userId, articles, status, error, now);
    forall d | d in rows
      ensures d.userId == userId
    {
      var i :| 0 <= i < |rows| && rows[i] == d;
    }
  }

  /** The rows added so far belong to users before `u` in rowid order, so none is `u`'s. */
  lemma EarlierUsersOnly(users: seq<User>, k: nat, extra: seq<Delivery>)
    requires k < |users| && SortedBy(users, UserBefore)
    requires forall d :: d in extra ==> exists kk :: 0 <= kk < |users[..k]| && users[..k][kk].id == d.userId
    ensures forall d :: d in extra ==> d.userId != users[k].id
  {
    forall d | d in extra
      ensures d.userId != users[k].id
    {
      var kk :| 0 <= kk < |users[..k]| && users[..k][kk].id == d.userId;
      assert UserBefore(users[kk], users[k]);
    }
  }

  /** Every row a send appends is the user's. */
  lemma SendLedgerOwner(firstId: nat, userId: int, articles: seq<FeedArticle>, transport: Outcome<string>, now: int)
    ensures forall d :: d in SendLedger(firstId, userId, articles, transport, now) ==> d.userId == userId
  {
    LedgerOwner(firstId, userId, articles, "sent", None, now);
    if transport.Fail? {
      LedgerOwner(firstId + |articles|, userId, articles, "failed", Some(transport.error), now);
    }
  }

  /** Rows of other users appended to the ledger do not change a user's outcome. */
  lemma OutcomeIgnoresOthers(feeds: seq<Feed>, subscriptions: seq<Subscription>, articles: seq<Article>,
                             before: seq<Delivery>, extra: seq<Delivery>, env: PassEnv, u: User)
    requires forall d :: d in extra ==> d.userId != u.id
    ensures OutcomeOf(feeds, subscriptions, articles, before + extra, env, u) ==
            OutcomeOf(feeds, subscriptions, articles, before, env, u)
  {
    OthersLedgerIgnored(feeds, subscriptions, articles, before, extra, u.id, env.now);
  }

  /** The batch one user's turn sends: empty when the user's local clock cannot
      be read, the user is not due or the article query throws, otherwise the
      user's articles. */
  function TurnBatch(feeds: seq<Feed>, subscriptions: seq<Subscription>, articles: seq<Article>,
                     deliveries: seq<Delivery>, env: PassEnv, u: User): seq<FeedArticle>
  {
    if env.localClock(u).None? then []
    else if !IsDeliveryTime(env.localClock(u).value.0, env.localClock(u).value.1, u.deliveryTime) || env.queryFails(u) then []
    else ArticlesForUser(feeds, subscriptions, articles, deliveries, u.id, env.now)
  }

  function BatchesFor(feeds: seq<Feed>, subscriptions: seq<Subscription>, articles: seq<Article>,
                      deliveries: seq<Delivery>, env: PassEnv): User -> seq<FeedArticle> {
    (u: User) => TurnBatch(feeds, subscriptions, articles, deliveries, env, u)
  }

  /** A turn's batch agrees with its outcome: a pushed user's batch holds the
      articles counted, a user who is skipped or whose query throws has none,
      and a failed send had a non-empty batch exactly when the clock was read and
      the query answered. */
  lemma TurnBatchOfOutcome(feeds: seq<Feed>, subscriptions: seq<Subscription>, articles: seq<Article>,
                           deliveries: seq<Delivery>, env: PassEnv, u: User)
    ensures var o := OutcomeOf(feeds, subscriptions, articles, deliveries, env, u);
      var batch := TurnBatch(feeds, subscriptions, articles, deliveries, env, u);
      && (o.Pushed? ==> |batch| == o.count && env.transport(u).Pass?)
      && (o == NotDue || o == NoArticles ==> batch == [])
      && (o == Failed ==> (batch == [] <==> env.localClock(u).None? || env.queryFails(u)))
      && (o == Failed && batch != [] ==> env.transport(u).Fail?)
  {
  }

  /** The body of the loop of `deliverArticlesToUsers` for one user: failed when
      the local clock cannot be read, skipped when not due, failed when the article query throws, skipped when nothing is new,
      otherwise one batch is sent. Every row it appends is this user's. */
  method ServeUser(store: Store, env: PassEnv, u: User) returns (o: UserOutcome)
    requires store.Valid()
    modifies store
    ensures store.Valid()
    ensures store.users == old(store.users) && store.feeds == old(store.feeds)
    ensures store.subscriptions == old(store.subscriptions) && store.articles == old(store.articles)
    ensures o == OutcomeOf(store.feeds, store.subscriptions, store.articles, old(store.deliveries), env, u)
    ensures |old(store.deliveries)| <= |store.deliveries|
    ensures store.deliveries[..|old(store.deliveries)|] == old(store.deliveries)
    ensures forall d :: d in store.deliveries[|old(store.deliveries)|..] ==> d.userId == u.id
    ensures TurnAppended(old(store.feeds), old(store.subscriptions), old(store.articles), old(store.deliveries),
                         store.deliveries, old(store.lastDeliveryId), env, u)
    ensures store.lastDeliveryId == old(store.lastDeliveryId) + |store.deliveries| - |old(store.deliveries)|
    ensures store.Counters() == old(store.Counters()).(delivery := store.lastDeliveryId)
  {
    var clock := env.localClock(u);
    if clock.None? {
      return Failed;
    }
    var (hour, minute) := clock.value;
    if !IsDeliveryTime(hour, minute, u.deliveryTime) {
      return NotDue;
    }
    if env.queryFails(u) {
      return Failed;
    }
    var batch := ArticlesForUser(store.feeds, store.subscriptions, store.articles, store.deliveries, u.id, env.now);
    if |batch| == 0 {
      return NoArticles;
    }
    ghost var before := store.deliveries;
    ghost var first := store.lastDeliveryId + 1;
    var ok, _ := SendArticlesToUser(store, u, batch, env.timeOf, env.transport(u), env.now);
    o := if ok then Pushed(|batch|) else Failed;
    assert o == Decide(env, u, batch);
    SendLedgerOwner(first, u.id, batch, env.transport(u), env.now);
    assert store.deliveries[|before|..] == TurnLedger(first, u, batch, env);
  }

  /** `deliverArticlesToUsers`: every active user in rowid order, each served as
      `ServeUser` says; a failure counts the user as failed and the pass goes on.
      The counters are the tally of each user's outcome against the tables as
      they were when the pass began: the rows the pass writes belong to other
      users, so they never change what a later user is offered. */
  method DeliverArticlesToUsers(store: Store, env: PassEnv) returns (results: DeliveryResults)
    requires store.Valid()
    modifies store
    ensures store.Valid()
    ensures store.users == old(store.users) && store.feeds == old(store.feeds)
    ensures store.subscriptions == old(store.subscriptions) && store.articles == old(store.articles)
    ensures results == Tally(|ActiveUsers(old(store.users))|,
      Map(ActiveUsers(old(store.users)),
          OutcomeFor(old(store.feeds), old(store.subscriptions), old(store.articles), old(store.deliveries), env)))
    ensures |old(store.deliveries)| <= |store.deliveries|
    ensures store.deliveries[..|old(store.deliveries)|] == old(store.deliveries)
    ensures forall d :: d in store.deliveries[|old(store.deliveries)|..] ==>
      exists kk :: 0 <= kk < |ActiveUsers(old(store.users))| && ActiveUsers(old(store.users))[kk].id == d.userId
    ensures store.deliveries == old(store.deliveries) +
      PassRows(BatchesFor(old(store.feeds), old(store.subscriptions), old(store.articles), old(store.deliveries), env),
               old(store.lastDeliveryId) + 1, env, ActiveUsers(old(store.users)))
    ensures store.lastDeliveryId == old(store.lastDeliveryId) + |store.deliveries| - |old(store.deliveries)|
    ensures store.Counters() == old(store.Counters()).(delivery := store.lastDeliveryId)
  {
    var users := ActiveUsers(store.users);
    FilterSorted(store.users, IsActive, UserBefore);
    ghost var before := store.deliveries;
    ghost var first := store.lastDeliveryId + 1;
    ghost var batchOf := BatchesFor(store.feeds, store.subscriptions, store.articles, store.deliveries, env);
    ghost var outcome := OutcomeFor(store.feeds, store.subscriptions, store.articles, store.deliveries, env);
    results := DeliveryResults(|users|, 0, 0, 0);
    for k := 0 to |users|
      invariant store.Valid()
      invariant store.users == old(store.users) && store.feeds == old(store.feeds)
      invariant store.subscriptions == old(store.subscriptions) && store.articles == old(store.articles)
      invariant RowsOfUsers(before, store.deliveries, users[..k])
      invariant store.Counters() == old(store.Counters()).(delivery := store.lastDeliveryId)
      invariant PassLedger(before, store.deliveries, store.lastDeliveryId, first, PassRows(batchOf, first, env, users[..k]))
      invariant results == Tally(|users|, Map(users[..k], outcome))
    {
      results := ServeNext(store, env, users, k, before, first, batchOf, outcome, results);
    }
    assert users[..|users|] == users;
  }

  /** `after` is the ledger `mid` followed by the rows of `u`'s turn: the batch
      the tables and `mid` decide, sent with the ids after `midLast`. */
  ghost predicate TurnAppended(feeds: seq<Feed>, subscriptions: seq<Subscription>, articles: seq<Article>,
                               mid: seq<Delivery>, after: seq<Delivery>, midLast: nat, env: PassEnv, u: User) {
    after == mid + TurnLedger(midLast + 1, u, TurnBatch(feeds, subscriptions, articles, mid, env, u), env)
  }

  /** The rows one user's turn appends: `batch` sent through the user's
      transport at the pass's clock, with ids from `firstId`. */
  function TurnLedger(firstId: nat, u: User, batch: seq<FeedArticle>, env: PassEnv): seq<Delivery> {
    SendLedger(firstId, u.id, batch, env.transport(u), env.now)
  }

  /** The rows a pass appends for `users`, in order: each user's batch, as
      `batchOf` gives it, sent with the next ids. */
  function PassRows(batchOf: User -> seq<FeedArticle>, firstId: nat, env: PassEnv, users: seq<User>): seq<Delivery>
    decreases |users|
  {
    if users == [] then []
    else
      var done := PassRows(batchOf, firstId, env, users[..|users| - 1]);
      var u := users[|users| - 1];
      done + TurnLedger(firstId + |done|, u, batchOf(u), env)
  }

  lemma PassRowsSnoc(batchOf: User -> seq<FeedArticle>, firstId: nat, env: PassEnv, users: seq<User>, k: nat)
    requires k < |users|
    ensures var done := PassRows(batchOf, firstId, env, users[..k]);
      PassRows(batchOf, firstId, env, users[..k + 1]) ==
      done + TurnLedger(firstId + |done|, users[k], batchOf(users[k]), env)
  {
    assert users[..k + 1][..k] == users[..k];
  }

  /** The ledger holds the rows before the pass followed by `rows`, and the id
      counter has handed out exactly their ids. */
  ghost predicate PassLedger(before: seq<Delivery>, deliveries: seq<Delivery>, lastId: nat, first: nat,
                             rows: seq<Delivery>) {
    deliveries == before + rows && lastId + 1 == first + |rows|
  }

  /** After a pass, every article of a user's batch has a row for that user,
      whether the send passed or failed. */
  lemma {:induction false} PassCoversBatches(batchOf: User -> seq<FeedArticle>, firstId: nat, env: PassEnv,
                                             users: seq<User>, k: nat, a: FeedArticle)
    requires k < |users| && a in batchOf(users[k])
    ensures Delivered(PassRows(batchOf, firstId, env, users), users[k].id, a.article.id)
    decreases |users|
  {
    var u := users[k];
    var init := users[..|users| - 1];
    var done := PassRows(batchOf, firstId, env, init);
    var last := users[|users| - 1];
    var turn := TurnLedger(firstId + |done|, last, batchOf(last), env);
    var rows := PassRows(batchOf, firstId, env, users);
    assert rows == done + turn;
    if k == |users| - 1 {
      var batch := batchOf(u);
      var i :| 0 <= i < |batch| && batch[i] == a;
      var sent := Ledger(firstId + |done|, u.id, batch, "sent", None, env.now);
      assert turn[i] == sent[i];
      assert turn[i] in rows;
    } else {
      assert init[k] == u;
      PassCoversBatches(batchOf, firstId, env, init, k, a);
      var d :| d in done && d.userId == u.id && d.articleId == a.article.id;
      assert d in rows;
    }
  }

  /** An article a due user was sent in a pass, or failed to be sent, is never
      offered to that user again: not by a later pass, whatever its clock, tables
      or further ledger rows. */
  lemma BatchNotOfferedAgain(feeds: seq<Feed>, subscriptions: seq<Subscription>, articles: seq<Article>,
                             deliveries: seq<Delivery>, firstId: nat, env: PassEnv, users: seq<User>, k: nat,
                             a: FeedArticle, feeds2: seq<Feed>, subscriptions2: seq<Subscription>,
                             articles2: seq<Article>, extra: seq<Delivery>, later: int)
    requires k < |users|
    requires a in TurnBatch(feeds, subscriptions, articles, deliveries, env, users[k])
    ensures var batchOf := BatchesFor(feeds, subscriptions, articles, deliveries, env);
      var ledger := deliveries + PassRows(batchOf, firstId, env, users) + extra;
      forall b :: b in ArticlesForUser(feeds2, subscriptions2, articles2, ledger, users[k].id, later) ==>
        b.article.id != a.article.id
  {
    var batchOf := BatchesFor(feeds, subscriptions, articles, deliveries, env);
    var rows := PassRows(batchOf, firstId, env, users);
    PassCoversBatches(batchOf, firstId, env, users, k, a);
    var d :| d in rows && d.userId == users[k].id && d.articleId == a.article.id;
    assert d in deliveries + rows + extra;
    DeliveredNeverOffered(feeds2, subscriptions2, articles2, deliveries + rows + extra, users[k].id, a.article.id, later);
  }

  /** A user is never offered an article the ledger already has a row for. */
  lemma DeliveredNeverOffered(feeds: seq<Feed>, subscriptions: seq<Subscription>, articles: seq<Article>,
                              deliveries: seq<Delivery>, userId: int, articleId: int, now: int)
    requires Delivered(deliveries, userId, articleId)
    ensures forall b :: b in ArticlesForUser(feeds, subscriptions, articles, deliveries, userId, now) ==>
      b.article.id != articleId
  {
    var r := ArticlesForUser(feeds, subscriptions, articles, deliveries, userId, now);
    BatchEligible(feeds, subscriptions, articles, deliveries, userId, now);
    forall b | b in r
      ensures b.article.id != articleId
    {
      var i :| 0 <= i < |r| && r[i] == b;
    }
  }

  /** The rows a pass has appended after `before` all belong to users in `done`. */
  ghost predicate RowsOfUsers(before: seq<Delivery>, deliveries: seq<Delivery>, done: seq<User>) {
    && |before| <= |deliveries| && deliveries[..|before|] == before
    && forall d :: d in deliveries[|before|..] ==> exists kk :: 0 <= kk < |done| && done[kk].id == d.userId
  }

  /** One turn of the loop of `deliverArticlesToUsers`: the `k`th active user is
      served and counted, with the outcome the tables as they were before the pass
      decide. */
  method ServeNext(store: Store, env: PassEnv, users: seq<User>, k: nat, ghost before: seq<Delivery>,
                   ghost first: nat, ghost batchOf: User -> seq<FeedArticle>, ghost outcome: User -> UserOutcome,
                   results: DeliveryResults)
    returns (next: DeliveryResults)
    requires store.Valid() && k < |users| && SortedBy(users, UserBefore)
    requires outcome == OutcomeFor(store.feeds, store.subscriptions, store.articles, before, env)
    requires RowsOfUsers(before, store.deliveries, users[..k])
    requires batchOf == BatchesFor(store.feeds, store.subscriptions, store.articles, before, env)
    requires PassLedger(before, store.deliveries, store.lastDeliveryId, first, PassRows(batchOf, first, env, users[..k]))
    requires results == Tally(|users|, Map(users[..k], outcome))
    modifies store
    ensures store.Valid()
    ensures store.users == old(store.users) && store.feeds == old(store.feeds)
    ensures store.subscriptions == old(store.subscriptions) && store.articles == old(store.articles)
    ensures RowsOfUsers(before, store.deliveries, users[..k + 1])
    ensures store.Counters() == old(store.Counters()).(delivery := store.lastDeliveryId)
    ensures PassLedger(before, store.deliveries, store.lastDeliveryId, first, PassRows(batchOf, first, env, users[..k + 1]))
    ensures next == Tally(|users|, Map(users[..k + 1], outcome))
  {
    var o := ServeUser(store, env, users[k]);
    next := Count(results, o);
    TurnStep(old(store.feeds), old(store.subscriptions), old(store.articles), before, old(store.deliveries),
             store.deliveries, old(store.lastDeliveryId), store.lastDeliveryId, first, env, batchOf, outcome,
             users, k, results);
  }

  /** What one turn of the pass keeps: the tally, the owners of the new rows and
      the ledger, given the rows `ServeUser` appended. */
  lemma TurnStep(feeds: seq<Feed>, subscriptions: seq<Subscription>, articles: seq<Article>,
                 before: seq<Delivery>, mid: seq<Delivery>, after: seq<Delivery>, midLast: nat, afterLast: nat,
                 first: nat, env: PassEnv, batchOf: User -> seq<FeedArticle>, outcome: User -> UserOutcome,
                 users: seq<User>, k: nat, results: DeliveryResults)
    requires k < |users| && SortedBy(users, UserBefore)
    requires outcome == OutcomeFor(feeds, subscriptions, articles, before, env)
    requires batchOf == BatchesFor(feeds, subscriptions, articles, before, env)
    requires RowsOfUsers(before, mid, users[..k])
    requires PassLedger(before, mid, midLast, first, PassRows(batchOf, first, env, users[..k]))
    requires results == Tally(|users|, Map(users[..k], outcome))
    requires |mid| <= |after| && after[..|mid|] == mid
    requires forall d :: d in after[|mid|..] ==> d.userId == users[k].id
    requires TurnAppended(feeds, subscriptions, articles, mid, after, midLast, env, users[k])
    requires afterLast == midLast + |after| - |mid|
    ensures Count(results, OutcomeOf(feeds, subscriptions, articles, mid, env, users[k])) ==
            Tally(|users|, Map(users[..k + 1], outcome))
    ensures RowsOfUsers(before, after, users[..k + 1])
    ensures PassLedger(before, after, afterLast, first, PassRows(batchOf, first, env, users[..k + 1]))
  {
    TurnTally(feeds, subscriptions, articles, before, mid, env, outcome, users, k, results);
    TurnKeepsOwners(before, mid, after, users, k);
    TurnExtendsPass(feeds, subscriptions, articles, before, mid, after, midLast, afterLast, first, env, batchOf, users, k);
  }

  /** The `k`th user's outcome against the ledger so far is the one the ledger
      before the pass decides, so counting it extends the tally by one user. */
  lemma TurnTally(feeds: seq<Feed>, subscriptions: seq<Subscription>, articles: seq<Article>,
                  before: seq<Delivery>, mid: seq<Delivery>, env: PassEnv, outcome: User -> UserOutcome,
                  users: seq<User>, k: nat, results: DeliveryResults)
    requires k < |users| && SortedBy(users, UserBefore)
    requires outcome == OutcomeFor(feeds, subscriptions, articles, before, env)
    requires RowsOfUsers(before, mid, users[..k])
    requires results == Tally(|users|, Map(users[..k], outcome))
    ensures Count(results, OutcomeOf(feeds, subscriptions, articles, mid, env, users[k])) ==
            Tally(|users|, Map(users[..k + 1], outcome))
  {
    var u := users[k];
    PrefixSnoc(users, k);
    MapSnoc(users[..k], u, outcome);
    TallySnoc(|users|, Map(users[..k], outcome), outcome(u));
    EarlierUsersOnly(users, k, mid[|before|..]);
    TakeDrop(mid, |before|);
    OutcomeIgnoresOthers(feeds, subscriptions, articles, before, mid[|before|..], env, u);
  }

  /** Rows of the `k`th user appended after rows of earlier users leave every
      new row with a user among the first `k + 1`. */
  lemma TurnKeepsOwners(before: seq<Delivery>, mid: seq<Delivery>, after: seq<Delivery>, users: seq<User>, k: nat)
    requires k < |users| && RowsOfUsers(before, mid, users[..k])
    requires |mid| <= |after| && after[..|mid|] == mid
    requires forall d :: d in after[|mid|..] ==> d.userId == users[k].id
    ensures RowsOfUsers(before, after, users[..k + 1])
  {
    TakeDrop(after, |mid|);
    NewRowsStep(before, mid, after[|mid|..], users[..k], users[k]);
    assert users[..k + 1] == users[..k] + [users[k]];
  }

  /** The ledger after the `k`th user's turn is the pass's rows for the first
      `k + 1` users: the rows written so far belong to earlier users, so the turn
      sends the batch the ledger before the pass decides. */
  lemma TurnExtendsPass(feeds: seq<Feed>, subscriptions: seq<Subscription>, articles: seq<Article>,
                        before: seq<Delivery>, mid: seq<Delivery>, after: seq<Delivery>,
                        midLast: nat, afterLast: nat, first: nat, env: PassEnv,
                        batchOf: User -> seq<FeedArticle>, users: seq<User>, k: nat)
    requires k < |users|
    requires batchOf == BatchesFor(feeds, subscriptions, articles, before, env)
    requires SortedBy(users, UserBefore) && RowsOfUsers(before, mid, users[..k])
    requires PassLedger(before, mid, midLast, first, PassRows(batchOf, first, env, users[..k]))
    requires TurnAppended(feeds, subscriptions, articles, mid, after, midLast, env, users[k])
    requires afterLast == midLast + |after| - |mid|
    ensures PassLedger(before, after, afterLast, first, PassRows(batchOf, first, env, users[..k + 1]))
  {
    var u := users[k];
    var done := PassRows(batchOf, first, env, users[..k]);
    assert mid[|before|..] == done;
    EarlierUsersOnly(users, k, done);
    TurnBatchIgnoresOthers(feeds, subscriptions, articles, before, done, env, u);
    assert TurnBatch(feeds, subscriptions, articles, mid, env, u) == batchOf(u);
    assert midLast + 1 == first + |done|;
    var turn := TurnLedger(first + |done|, u, batchOf(u), env);
    assert after == (before + done) + turn;
    assert afterLast + 1 == first + |done| + |turn|;
    PassRowsSnoc(batchOf, first, env, users, k);
    assert PassRows(batchOf, first, env, users[..k + 1]) == done + turn;
    AppendAssoc(before, done, turn);
  }

  /** Rows of other users do not change the batch a user's turn sends. */
  lemma TurnBatchIgnoresOthers(feeds: seq<Feed>, subscriptions: seq<Subscription>, articles: seq<Article>,
                               before: seq<Delivery>, extra: seq<Delivery>, env: PassEnv, u: User)
    requires forall d :: d in extra ==> d.userId != u.id
    ensures TurnBatch(feeds, subscriptions, articles, before + extra, env, u) ==
            TurnBatch(feeds, subscriptions, articles, before, env, u)
  {
    OthersLedgerIgnored(feeds, subscriptions, articles, before, extra, u.id, env.now);
  }

  // ------------------------------------------------------------ retention sweep

  const DeliveryRetentionDays := 90
  const UnprocessedRetentionDays := 7
  const ProcessedRetentionDays := 30

  /** The report of one cleanup statement: `query_i_deleted` or `query_i_error`. */
  datatype QueryReport = Deleted(changes: nat) | QueryError(message: string)

  /** `delivered_at < cutoff`. */
  function DeliveryExpired(cutoff: int): Delivery -> bool {
    (d: Delivery) => d.deliveredAt < cutoff
  }

  /** `processed = <flag> AND created_at < cutoff`. */
  function ArticleExpired(processed: bool, cutoff: int): Article -> bool {
    (a: Article) => a.processed == processed && a.createdAt < cutoff
  }

  /** One `DELETE ... WHERE expired`: on an error nothing is deleted and the message
      is reported; otherwise exactly the expired rows go and their number is reported. */
  function Sweep<T(!new)>(rows: seq<T>, expired: T -> bool, error: Option<string>): (r: (seq<T>, QueryReport))
    ensures error.Some? ==> r == (rows, QueryError(error.value))
    ensures error.None? ==> r.0 == Filter(rows, Not(expired)) && r.1 == Deleted(|Filter(rows, expired)|)
    ensures error.None? ==> forall x :: x in r.0 <==> x in rows && !expired(x)
    ensures error.None? ==> |r.0| + r.1.changes == |rows|
  {
    if error.Some? then (rows, QueryError(error.value))
    else
      FilterSplit(rows, expired);
      (Filter(rows, Not(expired)), Deleted(|Filter(rows, expired)|))
  }

  /** Removing rows that a second condition never matches leaves that condition's
      matches as they were: the two article statements count independently. */
  lemma {:induction false} FilterDisjoint<T(!new)>(s: seq<T>, p: T -> bool, q: T -> bool)
    requires forall x :: x in s ==> !(p(x) && q(x))
    ensures Filter(Filter(s, Not(p)), q) == Filter(s, q)
    decreases |s|
  {
    if s != [] {
      assert forall x :: x in s[1..] ==> x in s;
      FilterDisjoint(s[1..], p, q);
      assert Filter(s, Not(p)) == (if Not(p)(s[0]) then [s[0]] else []) + Filter(s[1..], Not(p));
    }
  }

  /** The unprocessed and the processed sweeps never touch the same row. */
  lemma ArticleSweepsIndependent(articles: seq<Article>, now: int)
    ensures Filter(Filter(articles, Not(ArticleExpired(false, now - UnprocessedRetentionDays * Day))),
                   ArticleExpired(true, now - ProcessedRetentionDays * Day)) ==
            Filter(articles, ArticleExpired(true, now - ProcessedRetentionDays * Day))
  {
    FilterDisjoint(articles, ArticleExpired(false, now - UnprocessedRetentionDays * Day),
                   ArticleExpired(true, now - ProcessedRetentionDays * Day));
  }

  /** `DELETE FROM delivery_history WHERE expired`. */
  method SweepDeliveries(store: Store, expired: Delivery -> bool, error: Option<string>) returns (report: QueryReport)
    requires store.Valid()
    modifies store
    ensures store.Valid()
    ensures store.users == old(store.users) && store.feeds == old(store.feeds)
    ensures store.subscriptions == old(store.subscriptions) && store.articles == old(store.articles)
    ensures store.Counters() == old(store.Counters())
    ensures (store.deliveries, report) == Sweep(old(store.deliveries), expired, error)
  {
    var (kept, r) := Sweep(store.deliveries, expired, error);
    FilterSorted(store.deliveries, Not(expired), DeliveryBefore);
    store.deliveries := kept;
    report := r;
  }

  /** `DELETE FROM articles WHERE expired`. */
  method SweepArticles(store: Store, expired: Article -> bool, error: Option<string>) returns (report: QueryReport)
    requires store.Valid()
    modifies store
    ensures store.Valid()
    ensures store.users == old(store.users) && store.feeds == old(store.feeds)
    ensures store.subscriptions == old(store.subscriptions) && store.deliveries == old(store.deliveries)
    ensures store.Counters() == old(store.Counters())
    ensures (store.articles, report) == Sweep(old(store.articles), expired, error)
  {
    var (kept, r) := Sweep(store.articles, expired, error);
    FilterSorted(store.articles, Not(expired), ArticleBefore);
    store.articles := kept;
    report := r;
  }

  /** `cleanupOldData`: the three DELETE statements, each with its own report.
      `queryError(i)` is the error statement `i` raises, if any. */
  method CleanupOldData(store: Store, now: int, queryError: nat -> Option<string>) returns (reports: seq<QueryReport>)
    requires store.Valid()
    modifies store
    ensures store.Valid()
    ensures store.users == old(store.users) && store.feeds == old(store.feeds)
    ensures store.subscriptions == old(store.subscriptions)
    ensures store.Counters() == old(store.Counters())
    ensures |reports| == 3
    ensures (store.deliveries, reports[0]) ==
      Sweep(old(store.deliveries), DeliveryExpired(now - DeliveryRetentionDays * Day), queryError(0))
    ensures var (kept, report) :=
      Sweep(old(store.articles), ArticleExpired(false, now - UnprocessedRetentionDays * Day), queryError(1));
      && reports[1] == report
      && (store.articles, reports[2]) == Sweep(kept, ArticleExpired(true, now - ProcessedRetentionDays * Day), queryError(2))
  {
    var r0 := SweepDeliveries(store, DeliveryExpired(now - DeliveryRetentionDays * Day), queryError(0));
    var r1 := SweepArticles(store, ArticleExpired(false, now - UnprocessedRetentionDays * Day), queryError(1));
    var r2 := SweepArticles(store, ArticleExpired(true, now - ProcessedRetentionDays * Day), queryError(2));
    reports := [r0, r1, r2];
  }

  // ------------------------------------------------------------ job registry

  /** The three jobs `init` schedules. */
  datatype TaskKind = FeedFetching | ArticleDelivery | DailyCleanup

  datatype JobState = Running | Stopped | Destroyed

  /** A node-cron task: its expression, what it runs, and whether it ticks. */
  datatype Job = Job(expression: string, task: TaskKind, state: JobState)

  /** One entry of `getJobStatus`. */
  datatype JobStatus = JobStatus(running: bool, scheduled: bool)

  const FeedFetchingJob := "feed-fetching"
  const ArticleDeliveryJob := "article-delivery"
  const DailyCleanupJob := "daily-cleanup"

  /** The registry after `scheduleJob`: a job already under the name is destroyed;
      when the expression is accepted the new running job takes the name, and
      otherwise the destroyed job stays where it was. */
  function Scheduled(jobs: map<string, Job>, name: string, expression: string, task: TaskKind,
                     accepts: string -> bool): (r: map<string, Job>)
    ensures r.Keys == jobs.Keys + (if accepts(expression) then {name} else {})
    ensures accepts(expression) ==> r[name] == Job(expression, task, Running)
    ensures !accepts(expression) && name in jobs ==> r[name] == jobs[name].(state := Destroyed)
    ensures forall n :: n in jobs && n != name ==> r[n] == jobs[n]
  {
    if accepts(expression) then jobs[name := Job(expression, task, Running)]
    else if name in jobs then jobs[name := jobs[name].(state := Destroyed)]
    else jobs
  }

  /** The registry after a first `init`. */
  function Initialized(jobs: map<string, Job>, accepts: string -> bool): map<string, Job> {
    var j := Scheduled(jobs, FeedFetchingJob, "0 * * * *", FeedFetching, accepts);
    var j := Scheduled(j, ArticleDeliveryJob, "*/30 * * * *", ArticleDelivery, accepts);
    Scheduled(j, DailyCleanupJob, "0 2 * * *", DailyCleanup, accepts)
  }

  /** With the three expressions accepted, `init` leaves each job running under its
      name with its expression, and keeps every other job. */
  lemma InitRegistersAll(jobs: map<string, Job>, accepts: string -> bool)
    requires accepts("0 * * * *") && accepts("*/30 * * * *") && accepts("0 2 * * *")
    ensures var r := Initialized(jobs, accepts);
      && r.Keys == jobs.Keys + {FeedFetchingJob, ArticleDeliveryJob, DailyCleanupJob}
      && r[FeedFetchingJob] == Job("0 * * * *", FeedFetching, Running)
      && r[ArticleDeliveryJob] == Job("*/30 * * * *", ArticleDelivery, Running)
      && r[DailyCleanupJob] == Job("0 2 * * *", DailyCleanup, Running)
      && forall n :: n in jobs && n !in {FeedFetchingJob, ArticleDeliveryJob, DailyCleanupJob} ==> r[n] == jobs[n]
  {
  }

  /** The names a first `init` retires: those of its three jobs already registered. */
  lemma RetiredOnInit(jobs0: map<string, Job>, accepts: string -> bool, retired0: multiset<string>)
    ensures var jobs1 := Scheduled(jobs0, FeedFetchingJob, "0 * * * *", FeedFetching, accepts);
      var jobs2 := Scheduled(jobs1, ArticleDeliveryJob, "*/30 * * * *", ArticleDelivery, accepts);
      retired0 + (if FeedFetchingJob in jobs0 then multiset{FeedFetchingJob} else multiset{})
               + (if ArticleDeliveryJob in jobs1 then multiset{ArticleDeliveryJob} else multiset{})
               + (if DailyCleanupJob in jobs2 then multiset{DailyCleanupJob} else multiset{})
      == retired0 + multiset(jobs0.Keys * {FeedFetchingJob, ArticleDeliveryJob, DailyCleanupJob})
  {
    JobNamesDistinct();
  }

  lemma JobNamesDistinct()
    ensures FeedFetchingJob != ArticleDeliveryJob && FeedFetchingJob != DailyCleanupJob
    ensures ArticleDeliveryJob != DailyCleanupJob
  {
    assert FeedFetchingJob[0] != ArticleDeliveryJob[0] && FeedFetchingJob[0] != DailyCleanupJob[0];
    assert ArticleDeliveryJob[0] != DailyCleanupJob[0];
  }

  /** The scheduler object: the name-to-job map and the init guard. `retired`
      records the names of the jobs `destroy()` was called on. */
  class Scheduler {
    var jobs: map<string, Job>
    var isInitialized: bool
    ghost var retired: multiset<string>

    constructor ()
      ensures jobs == map[] && !isInitialized && retired == multiset{}
    {
      jobs := map[];
      isInitialized := false;
      retired := multiset{};
    }

    /** `scheduleJob`. `accepts` is node-cron's validation of an expression. */
    method ScheduleJob(name: string, expression: string, task: TaskKind, accepts: string -> bool)
      modifies this
      ensures isInitialized == old(isInitialized)
      ensures jobs == Scheduled(old(jobs), name, expression, task, accepts)
      ensures retired == old(retired) + (if name in old(jobs) then multiset{name} else multiset{})
    {
      if name in jobs {
        jobs := jobs[name := jobs[name].(state := Destroyed)];
        retired := retired + multiset{name};
      }
      if accepts(expression) {
        jobs := jobs[name := Job(expression, task, Running)];
      }
    }

    /** `init`: a second call changes nothing; a first one schedules the three jobs
        and sets the flag, even when a schedule call failed. */
    method Init(accepts: string -> bool)
      modifies this
      ensures isInitialized
      ensures old(isInitialized) ==> jobs == old(jobs) && retired == old(retired)
      ensures !old(isInitialized) ==> jobs == Initialized(old(jobs), accepts)
      ensures !old(isInitialized) ==>
        retired == old(retired) + multiset(old(jobs).Keys * {FeedFetchingJob, ArticleDeliveryJob, DailyCleanupJob})
    {
      if isInitialized {
        return;
      }
      ghost var jobs0, retired0 := jobs, retired;
      ScheduleJob(FeedFetchingJob, "0 * * * *", FeedFetching, accepts);
      ScheduleJob(ArticleDeliveryJob, "*/30 * * * *", ArticleDelivery, accepts);
      ScheduleJob(DailyCleanupJob, "0 2 * * *", DailyCleanup, accepts);
      isInitialized := true;
      RetiredOnInit(jobs0, accepts, retired0);
    }

    /** `startJob`: a known job is started; an unknown name changes nothing. */
    method StartJob(name: string)
      modifies this
      ensures isInitialized == old(isInitialized) && retired == old(retired)
      ensures jobs == if name in old(jobs) then old(jobs)[name := old(jobs)[name].(state := Running)] else old(jobs)
    {
      if name in jobs {
        jobs := jobs[name := jobs[name].(state := Running)];
      }
    }

    /** `stopJob`: a known job is stopped; an unknown name changes nothing. */
    method StopJob(name: string)
      modifies this
      ensures isInitialized == old(isInitialized) && retired == old(retired)
      ensures jobs == if name in old(jobs) then old(jobs)[name := old(jobs)[name].(state := Stopped)] else old(jobs)
    {
      if name in jobs {
        jobs := jobs[name := jobs[name].(state := Stopped)];
      }
    }

    /** `getJobStatus`: one entry per stored job, never running (node-cron tasks
        carry no `running` property), always scheduled. */
    function GetJobStatus(): (r: map<string, JobStatus>)
      reads this
      ensures r.Keys == jobs.Keys
      ensures forall n :: n in r ==> r[n] == JobStatus(false, true)
    {
      map n | n in jobs :: JobStatus(false, true)
    }

    /** `destroy`: every job is destroyed, the map emptied and the flag cleared. */
    method Destroy()
      modifies this
      ensures jobs == map[] && !isInitialized
      ensures retired == old(retired) + multiset(old(jobs).Keys)
    {
      retired := retired + multiset(jobs.Keys);
      jobs := map[];
      isInitialized := false;
    }
  }
}
