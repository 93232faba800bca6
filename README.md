# News LINE services — a Dafny model

News LINE collects articles from RSS feeds, summarises them and delivers them to
LINE users at their chosen time of day. This project models the six service
modules that do that work, and proves properties of the model:

- **the content store** (`database.js`). `Database.Store` is a class holding the five
  tables the services use: users, feeds, subscriptions, articles and the delivery
  history. Each table is a sequence of rows in rowid order. The class keeps the
  AUTOINCREMENT counters and the schema's UNIQUE constraints and defaults as its
  invariant `Valid`.
- **the ingestion pass** (`feedParser.js`). It covers the per-item defaults of the
  feed reader and `cleanArticleData`. It also covers the deduplicating insertion
  loop over every active feed with its counters, the enrichment of a stored
  article, `addFeed` and the preview of `getTestFeedData`.
- **the summariser** (`summarizer.js`). It covers the level table, the
  sentence-based fallback summary and the parsing of a keyword reply. It also
  covers the word-frequency keyword extractor, written as a counting loop followed
  by a sort and a slice.
- **the article extractor** (`articleExtractor.js`). It covers URL validation, the
  first-match selector searches for the title and the main text, the metadata
  fallback chains, the defaults of the extracted record and the whitespace
  normaliser `cleanText`.
- **the LINE messaging service** (`lineMessaging.js`). It covers the text and flex
  summary messages, the summary push with its flex-to-text fallback, and the
  webhook dispatch over message, follow, unfollow and other events.
- **the scheduler** (`scheduler.js`). `Scheduler.Scheduler` is a class holding the
  named-job registry, its init guard and `destroy`. The module also holds the
  delivery pass: who is due, which articles each user gets, the batch of messages
  and the ledger rows it writes, and the pass counters. The retention sweep is
  modelled as well.

Time is whole seconds since the epoch. Every outside party is a parameter:
- the current time, and each user's local clock reading, or its failure when the user's time zone is not one;
- the HTTP fetch with the feed parse, and the page fetch;
- the OpenAI replies, the LINE push and reply, and `new URL`;
- cheerio's HTML-to-text, and the date formatter.

Three calls in the source name a method that does not exist on the object they
are made on:
- `lineMessaging.sendMessages` at scheduler.js:210;
- `articleExtractor.extract` at feedParser.js:177;
- `this.cleanArticleData` inside the stream listener at feedParser.js:62, where
  `this` is the parser stream.

Each of these is modelled as an abstract outcome that may pass or fail. The
first two throw inside a `try` whose `catch` handles the error, so their
always-failing behaviour as written is the failing outcome. The third throws
inside the stream's `readable` listener, outside the Promise executor. Where it
goes then depends on the stream library, which is not part of this model. If
the `readable` event is emitted synchronously from the parser's write, the
error unwinds into feedparser's own `try`/`catch`, becomes an `error` event and
rejects `parseFeed`. If the event is emitted on a later tick, the error escapes
as an uncaught exception that the per-feed isolation never sees. The model's
failing outcome there stands for a rejected parse, and the escaping exception
is not modelled.

`Text` and `Sorting` hold the JavaScript string operations the services use and
the ordering of query results (`ORDER BY`, `LIMIT`, `slice`). `Wrappers` holds
`Option`, `Result` and `Outcome`.

## Model

| member | source | states |
|---|---|---|
| Text.TrimShape | src/services/summarizer.js:95 | `trim` yields a contiguous slice of its input with no whitespace at either end, and is empty exactly when the input is all whitespace |
| Text.TrimBounds | src/services/summarizer.js:95 | every character `trim` removes, before or after the kept slice, is whitespace |
| Text.TrimIdempotent | src/services/summarizer.js:129 | trimming twice is trimming once |
| Text.SplitOn | src/services/summarizer.js:129 | `split(c)` always yields at least one piece |
| Text.SplitOnPieces | src/services/summarizer.js:129 | no piece of `split(c)` holds `c` |
| Text.SplitAtFirst | src/services/summarizer.js:129 | splitting a text at its first `c` gives the text before it, then the split of the rest |
| Text.JoinSplitOn | src/services/summarizer.js:129 | joining the pieces of `split(c)` with `c` gives back the original string |
| Text.SplitOnJoin | src/services/feedParser.js:188 | splitting on `c` a join made with `c` gives back the parts, when no part holds `c` |
| Text.SplitOnCount | src/services/summarizer.js:72 | `split(' ').length` is one more than the number of spaces |
| Text.SplitRuns | src/services/summarizer.js:82 | `split(/[.!?]+/)` yields at least one piece, and no piece holds a terminator |
| Text.SplitRunsKeepsText | src/services/summarizer.js:82 | concatenating the pieces of a run split gives the input with the separator characters removed, so nothing else is lost |
| Text.StripAppend | src/services/summarizer.js:82 | removing a character class distributes over concatenation |
| Text.ToLower | src/services/lineMessaging.js:204 | lower-casing keeps the length and maps each character independently |
| Text.NatToString | src/services/lineMessaging.js:46 | the decimal rendering of a number is a non-empty run of digits |
| Text.DigitsValueOfNatToString | src/services/scheduler.js:153 | reading back the decimal rendering of a number gives the number |
| Text.IndexOf | src/services/summarizer.js:129 | the index found holds the searched character, and no earlier position does |
| Sorting.SortBy | src/services/database.js:215 | `ORDER BY` returns a permutation of the rows |
| Sorting.SortBySorted | src/services/database.js:215 | under a total preorder, the result of `ORDER BY` is ordered |
| Sorting.StrLeTotal | src/services/database.js:215 | the code-point order on names compares every pair of names |
| Sorting.StrLeTransitive | src/services/database.js:215 | the code-point order on names is transitive |
| Sorting.SliceTo | src/services/summarizer.js:162 | `slice(0, n)` is a prefix of length `min(n, len)`, and a negative `n` drops that many elements from the end |
| Sorting.Filter | src/services/database.js:228 | `WHERE` keeps exactly the rows satisfying the condition, as a sub-multiset of the table |
| Sorting.FilterSorted | src/services/database.js:228 | filtering an ordered table leaves it ordered |
| Sorting.FilterSplit | src/services/scheduler.js:280 | the rows a condition keeps and the rows it drops add up to the table |
| Sorting.Top | src/services/database.js:288 | `ORDER BY ... LIMIT n` takes `min(n, len)` rows out of the table, or all of them for a negative limit |
| Sorting.TopIsTop | src/services/database.js:288 | the rows `LIMIT n` keeps come from the table and are ordered, and no row it drops ranks ahead of one it keeps |
| Summarizer.LevelTable | src/services/summarizer.js:15-19 | brief is 2 sentences, standard 4 and detailed 8; a level naming a member every object inherits (`toString`, `__proto__` and the like) finds that member, which has no sentence count; any other unknown level falls back to standard |
| Summarizer.Qualifying | src/services/summarizer.js:82 | the filter keeps exactly the segments whose trimmed length exceeds 10 |
| Summarizer.Sentences | src/services/summarizer.js:82 | every sentence kept has trimmed length over 10 and holds no `.`, `!` or `?` |
| Summarizer.Selected | src/services/summarizer.js:79-94 | the selection is the first `min(level count, available)` sentences, in order, or every sentence when the level found an inherited member and the count is `undefined` |
| Summarizer.FallbackSummarize | src/services/summarizer.js:76-103 | with no qualifying sentence the fixed no-content text with word count 0; otherwise the trimmed join of the selection plus one `.`, since the join never ends in a terminator; method is `fallback` and the level is echoed |
| Summarizer.FallbackWordCount | src/services/summarizer.js:95-101 | a fallback summary of a text with sentences counts one word more than the finished summary has spaces |
| Summarizer.SummaryEndsInSentence | src/services/summarizer.js:95-98 | a trimmed join of qualifying sentences is non-empty and does not end in `.`, `!` or `?` |
| Summarizer.Summarize | src/services/summarizer.js:22-74 | blank text, no client or a failed reply falls back; a reply is trimmed and labelled `openai`, and its word count is one more than the number of spaces in the trimmed reply |
| Summarizer.BlankTextSummary | src/services/summarizer.js:26-41 | a blank text never reaches the model and yields the no-content fallback |
| Summarizer.ParseKeywords | src/services/summarizer.js:128-129 | every parsed keyword is non-empty, trimmed and free of commas |
| Summarizer.KeywordReplyRoundTrip | src/services/summarizer.js:129 | parsing a reply made by joining keywords with `", "` gives back those keywords |
| Summarizer.ParseJoined | src/services/feedParser.js:188 | splitting the stored `", "` join on commas and trimming recovers the keyword list |
| Summarizer.ParsePadded | src/services/summarizer.js:128-129 | leading whitespace before a reply does not change the parsed keywords |
| Summarizer.KeepWordAndSpace | src/services/summarizer.js:142 | only word characters and whitespace of the input survive |
| Summarizer.LongWords | src/services/summarizer.js:144 | exactly the words longer than 3 characters are kept |
| Summarizer.WordsShape | src/services/summarizer.js:141-144 | every counted word is longer than 3, made of word characters and has no upper-case letter |
| Summarizer.ByCountTotal | src/services/summarizer.js:161 | with numbers only, the count comparator is a valid total preorder |
| Summarizer.NotANumberBreaksOrder | src/services/summarizer.js:156-161 | once `constructor` holds a string, the comparator is no longer transitive, so the sort order is the implementation's |
| Summarizer.CountWords | src/services/summarizer.js:153-158 | the plain-object counter holds exactly the non-stop words other than `__proto__`, whose assignment is ignored; each maps to its occurrence count except `constructor`, which holds a string; entries list each key once |
| Summarizer.CountWord | src/services/summarizer.js:154-157 | one visit keeps the counter equal to the counts of the words visited so far |
| Summarizer.SelectionOfSorted | src/services/summarizer.js:160-163 | whatever the comparator does, sorting and slicing the entries gives distinct counted words, at most `max`, all of them when fewer exist |
| Summarizer.RankingOfSorted | src/services/summarizer.js:160-163 | with numbers only, sorting entries by count and slicing yields a keyword ranking |
| Summarizer.FallbackExtractKeywords | src/services/summarizer.js:139-164 | at most `max` distinct counted words, all of them when fewer than `max` exist; when `constructor` does not occur, by non-increasing count with none omitted that outranks one returned |
| Summarizer.ExtractKeywords | src/services/summarizer.js:105-137 | blank text gives no keywords; a reply is parsed; no client or a failed call gives the fallback's selection, ranked when `constructor` does not occur |
| ArticleExtractor.CollapseSpaces | src/services/articleExtractor.js:129 | the result is single-spaced, empty only for empty input, starts with a space exactly when the input starts with whitespace, and keeps the non-whitespace text |
| ArticleExtractor.CollapseSpacesJoin | src/services/articleExtractor.js:129 | each whitespace run becomes one space at its place: the result is the pieces between the runs, the empty end pieces included, joined by single spaces |
| ArticleExtractor.CleanTextShape | src/services/articleExtractor.js:127-132 | the result has no whitespace at either end, space is its only whitespace, no two are adjacent, and it is empty only for blank input |
| ArticleExtractor.CleanTextIdempotent | src/services/articleExtractor.js:127-132 | cleaning twice is cleaning once |
| ArticleExtractor.CollapseSingleSpaced | src/services/articleExtractor.js:129 | collapsing whitespace leaves text that is already single-spaced unchanged |
| ArticleExtractor.FirstHit | src/services/articleExtractor.js:74-79 | the index found is the first selector that hits, or the end when none does |
| ArticleExtractor.ExtractTitle | src/services/articleExtractor.js:65-82 | a title found is never empty |
| ArticleExtractor.ExtractTitleFirstMatch | src/services/articleExtractor.js:66-81 | null exactly when no selector hits; otherwise the trimmed text of the first selector in order whose text is non-blank |
| ArticleExtractor.LongParagraphs | src/services/articleExtractor.js:108 | only paragraphs longer than 20 characters are kept |
| ArticleExtractor.LongParagraphsExactly | src/services/articleExtractor.js:107-108 | a text is kept exactly when it is the trimmed form, longer than 20 characters, of some paragraph |
| ArticleExtractor.ExtractMainContentFirstMatch | src/services/articleExtractor.js:84-111 | the cleaned text of the first selector whose trimmed text exceeds 100 characters; failing that the cleaned paragraph join when over 100, else null |
| ArticleExtractor.FirstSet | src/services/articleExtractor.js:113-125 | the index found is the first alternative that is set, or the end when none is |
| ArticleExtractor.FirstValue | src/services/articleExtractor.js:113-125 | a metadata field is the first non-empty alternative in order, and empty only when none is set |
| ArticleExtractor.ExtractContent | src/services/articleExtractor.js:42-63 | title, content and author are never empty; each field is the extracted value when there is one, and otherwise its default text, the date falling back to now |
| ArticleExtractor.ExtractFromUrl | src/services/articleExtractor.js:10-40 | a URL that does not parse as http or https fails before any fetch; every failure carries the extraction-failed prefix; a fetched page yields its extracted content |
| ArticleExtractor.RejectsInvalidUrl | src/services/articleExtractor.js:15-17 | an unparsable URL fails with a message containing `Invalid URL` |
| ArticleExtractor.TitleFromH1 | src/services/articleExtractor.js:66-77 | a page whose `h1` reads `My Title` yields that title |
| LineMessaging.MissingCredentialDisables | src/services/lineMessaging.js:5-23 | a missing or empty access token or secret leaves no client, and both summary sends then report the configuration error without a push |
| LineMessaging.FormatSummaryMessage | src/services/lineMessaging.js:41-52 | the summary message is a text message |
| LineMessaging.SummaryMessageMentions | src/services/lineMessaging.js:46 | the text carries the title, the level, the summary, the URL and the word count |
| LineMessaging.CreateFlexSummaryMessage | src/services/lineMessaging.js:75-158 | the flex summary is a flex message |
| LineMessaging.FlexMatchesText | src/services/lineMessaging.js:81 | the alt text is the title with the news mark, the button opens the article URL, and title, summary and level agree with the text message |
| LineMessaging.SendSummary | src/services/lineMessaging.js:19-39 | unconfigured: the not-configured error and no push; otherwise exactly one push of the text message, and success exactly when it passes, with the push error otherwise |
| LineMessaging.SendFlexSummary | src/services/lineMessaging.js:54-73 | unconfigured: the not-configured error and no push; otherwise the flex push first, and a second push exactly when it fails |
| LineMessaging.FlexFallsBackToText | src/services/lineMessaging.js:68-72 | a failed flex push continues as the text summary, and the result succeeds exactly when either push passes |
| LineMessaging.ReplyPriority | src/services/lineMessaging.js:204-222 | on the lower-cased text: help first, then summary, then a URL, then the default; never the welcome text |
| LineMessaging.UpperCaseHelp | src/services/lineMessaging.js:204-208 | `HELP me` is answered with the help text because the text is lower-cased first |
| LineMessaging.ReplyFor | src/services/lineMessaging.js:184-243 | a reply is sent exactly for a text message or a follow event |
| LineMessaging.HandleEvent | src/services/lineMessaging.js:181-243 | at most one reply, sent exactly when one is due; the event fails exactly when that reply fails, with its error |
| LineMessaging.QuietEvents | src/services/lineMessaging.js:189-193 | unfollow and unknown events are handled without any reply |
| LineMessaging.RepliesUpTo | src/services/lineMessaging.js:168-176 | every reply an event calls for is among the replies of the batch, which are no more than the events |
| LineMessaging.RepliesAnswerEvents | src/services/lineMessaging.js:168-176 | every reply of the batch answers one of its events |
| LineMessaging.HandleWebhook | src/services/lineMessaging.js:160-179 | unconfigured: no results; otherwise one result per event in order, each the event's own outcome whether or not an earlier event failed, and the replies are exactly those the events call for, in event order |
| LineMessaging.HandleNext | src/services/lineMessaging.js:169-175 | one turn adds the event's own result and its replies |
| LineMessaging.HandlingReplies | src/services/lineMessaging.js:181-243 | an event's handling sends exactly the reply it calls for |
| Database.ApplySettings | src/services/database.js:163-197 | only the truthy text settings and a defined `active` change, `updated_at` is always set, and identity columns are kept |
| Database.ByNameTotal | src/services/database.js:215 | ordering feeds by name is a total preorder |
| Database.FeedNameOf | src/services/database.js:299-306 | the LEFT JOIN yields a feed's name exactly when the article's feed exists |
| Database.Joined | src/services/database.js:299-306 | the join keeps every article in order and attaches the name of its feed |
| Database.JoinedArticles | src/services/database.js:299-306 | dropping the joined feed names gives back the articles |
| Database.NewestFirst | src/services/database.js:286-315 | at most `limit` matching rows, newest first, none dropped that is newer than one kept, all of them under the limit |
| Database.Store.constructor | src/services/database.js:34-98 | a fresh store has empty tables and meets the schema invariant |
| Database.Store.CreateUser | src/services/database.js:137-148 | a duplicate LINE id fails with the UNIQUE error and adds nothing; otherwise a row with the next id and the defaults standard, 08:00, Asia/Tokyo, active; only the user counter moves, and only on success |
| Database.Store.UpdateUserSettings | src/services/database.js:163-197 | only the row with that LINE id changes, by the supplied settings, and the change count is 1 exactly when it exists; no id counter moves |
| Database.Store.CreateFeed | src/services/database.js:200-211 | a duplicate URL fails with the UNIQUE error and adds nothing; otherwise an active feed with the next id and interval 3600; only the feed counter moves, and only on success |
| Database.Store.GetAllFeeds | src/services/database.js:213-224 | every feed exactly once, ordered by name |
| Database.Store.GetActiveFeeds | src/services/database.js:226-237 | exactly the active feeds, ordered by name |
| Database.Store.UpdateFeedLastFetched | src/services/database.js:239-250 | only the feed with that id gets the new fetch time, and the change count is 1 exactly when it exists; no id counter moves |
| Database.Store.CreateArticle | src/services/database.js:253-271 | a URL already stored fails and inserts nothing; otherwise an unprocessed row with no summary or keywords and the next id; only the article counter moves, and only on success |
| Database.Store.UpdateArticleSummary | src/services/database.js:273-284 | only the row with that id gets summary, keywords and processed, and the change count is 1 exactly when it exists; no id counter moves |
| Database.Store.GetUnprocessedArticles | src/services/database.js:286-297 | at most `limit` (default 10) unprocessed articles, newest first |
| Database.Store.GetRecentArticles | src/services/database.js:299-315 | at most `limit` (default 20) processed articles, newest first, each with its feed's name |
| Database.Store.CreateSubscription | src/services/database.js:318-329 | a pair already held fails with the UNIQUE error and adds nothing; otherwise an active row with the next id; only the subscription counter moves, and only on success |
| Database.Store.GetUserSubscriptions | src/services/database.js:331-344 | exactly the feeds the user has an active subscription to |
| Database.Store.RecordDelivery | src/services/database.js:347-359 | always appends one row with the next id, status `sent` by default; no other counter moves |
| Database.Stamp | src/services/database.js:239-250 | only the feed with the id gets `last_fetched`, every other row is unchanged |
| Database.Summarized | src/services/database.js:273-284 | only the article with the id gets summary, keywords and processed, every other row is unchanged |
| Database.UsersKeepOrder | src/services/database.js:39 | an update that keeps ids and LINE ids keeps the users' UNIQUE and rowid invariant |
| Database.FeedsKeepOrder | src/services/database.js:53 | an update that keeps ids and URLs keeps the feeds' UNIQUE and rowid invariant |
| Database.ArticlesKeepOrder | src/services/database.js:78 | an update that keeps ids and URLs keeps the articles' UNIQUE and rowid invariant |
| Database.SubscriptionsGrow | src/services/database.js:70 | appending a new pair with the next id keeps the subscriptions' UNIQUE and rowid invariant |
| FeedParser.BuildItem | src/services/feedParser.js:49-58 | the URL is the link, else the guid; a missing title is `No title`; a missing description is empty; the date falls back to now; the feed id is carried |
| FeedParser.KeptIffLinked | src/services/feedParser.js:61 | an item is kept exactly when it has a link or a guid |
| FeedParser.KeptExactly | src/services/feedParser.js:46-63 | the kept items are exactly the built items that have a URL and a title |
| FeedParser.CleanArticleData | src/services/feedParser.js:82-103 | a valid date is kept and an invalid one becomes now; description, author, categories and feed id are unchanged |
| FeedParser.CleanedShape | src/services/feedParser.js:85-101 | title, URL and content are trimmed, and title and URL are empty only when they were blank |
| FeedParser.CleanKeepsTrimmedTitle | src/services/feedParser.js:100 | an already-trimmed title is kept as it is |
| FeedParser.ParsedOutcomes | src/services/feedParser.js:14-80 | a failed fetch is the fetch error; a failed clean call with items to clean is that error; otherwise one cleaned article per kept item, in order |
| FeedParser.CleanAll | src/services/feedParser.js:62 | the cleaned list is each kept item cleaned, in order |
| FeedParser.ParseFeed | src/services/feedParser.js:46-71 | the item loop produces the parse result above |
| FeedParser.ArticleIdsWithUrl | src/services/feedParser.js:161-172 | empty exactly when no stored article has the URL, at most one id under the URL constraint, each id that of an article with the URL |
| FeedParser.Jobs | src/services/feedParser.js:133 | one enrichment job per inserted article, with its id and URL |
| FeedParser.SaveNewArticles | src/services/feedParser.js:123-138 | only new rows are appended, every parsed URL ends up stored, each new row comes from a parsed article not stored before, and one job is started per new row; the article id counter advances by the rows added and no other counter moves |
| FeedParser.FetchFeed | src/services/feedParser.js:119-149 | a feed counts as successful exactly when its parse succeeds; a failed feed adds nothing and is not stamped; a successful one stores all its URLs, adds rows only from its own parsed articles and is stamped; only the article id counter moves, by the rows added |
| FeedParser.FetchFeeds | src/services/feedParser.js:118-150 | over the active feeds: successful plus failed equals the total, new articles are the rows added, every new row comes from a parsed article of a feed that parsed, only successful feeds are stamped, and only the article id counter moves, by the new articles |
| FeedParser.FetchAndProcessAllFeeds | src/services/feedParser.js:105-159 | the total is the number of active feeds, successful plus failed equals it, new articles are the rows added, every new row comes from a parsed article of an active feed that parsed, exactly the active feeds that parse are stamped and have all their URLs stored, and only the article id counter moves, by the new articles |
| FeedParser.ProcessArticle | src/services/feedParser.js:174-198 | with extracted text, the summary and the keywords joined by `", "` are stored on that row only; otherwise nothing changes; no id counter moves |
| FeedParser.AddFeed | src/services/feedParser.js:200-214 | a failed parse adds nothing and reports its error; a duplicate URL fails with the UNIQUE error; otherwise a new active feed with the next feed id; only the feed id counter moves, and only on success |
| FeedParser.PreviewText | src/services/feedParser.js:223 | the preview is the first 200 characters followed by `...` |
| FeedParser.TestFeedData | src/services/feedParser.js:216-229 | a failed parse is its error; otherwise `slice(0, maxItems)` of the parsed articles (default 5), each with its preview |
| Scheduler.ToNumber | src/services/scheduler.js:153 | a run of decimal digits reads as its value |
| Scheduler.TwoDigits | src/services/scheduler.js:153 | a stored hour or minute is two digits without a colon |
| Scheduler.ToNumberTwoDigits | src/services/scheduler.js:153 | reading two written digits back gives the number |
| Scheduler.DeliveryClockRoundTrip | src/services/scheduler.js:153 | splitting a written `HH:MM` setting reads back its hour and minute |
| Scheduler.DeliveryWindow | src/services/scheduler.js:156-161 | a user is due exactly when the minute of day is within 30 of the delivery minute, with no wrap at midnight |
| Scheduler.DeliveryWindowExamples | src/services/scheduler.js:156-161 | 08:30 and 07:30 are due for 08:00, 08:31 is not, and 23:50 is not due for 00:10 |
| Scheduler.NoMinuteNeverDue | src/services/scheduler.js:153-161 | a setting without a colon gives `NaN` and is never due |
| Scheduler.ArticlesForUser | src/services/scheduler.js:164-190 | at most five eligible articles, newest first, none left out newer than one returned, all of them when fewer are eligible, each with its feed name (corrected recency, see Findings) |
| Scheduler.BatchEligible | src/services/scheduler.js:166-179 | every article returned is processed, summarised, recent, from an existing feed the user actively follows, and not yet delivered to the user |
| Scheduler.NoFeedNeverSelected | src/services/scheduler.js:169 | an article without a feed is never returned |
| Scheduler.OthersLedgerIgnored | src/services/scheduler.js:171 | delivery rows of other users do not change a user's selection |
| Scheduler.AsWrittenComparesDays | src/services/scheduler.js:176 | the text comparison as written compares calendar days only |
| Scheduler.AsWrittenAdmitsOlderThanADay | src/services/scheduler.js:176 | an article 35.5 hours old passes the test as written but is not recent |
| Scheduler.AsWrittenBounds | src/services/scheduler.js:176 | the test as written admits every article from the last 24 hours, and none older than 48 |
| Scheduler.SourceName | src/services/scheduler.js:229 | the feed name, or `ニュース` when there is none |
| Scheduler.SummaryText | src/services/scheduler.js:230 | the summary, or `要約が利用できません` when there is none |
| Scheduler.KeywordLine | src/services/scheduler.js:231 | the keywords with their tag, or an empty line when there are none |
| Scheduler.ArticleMessageLayout | src/services/scheduler.js:243-253 | an article message opens with title, time and source, closes with the link and the rule, and carries the summary and keyword line |
| Scheduler.Batch | src/services/scheduler.js:194-198 | a batch has one message more than articles, the header with the count first |
| Scheduler.BatchMessages | src/services/scheduler.js:201-204 | after the header, one message per article in input order |
| Scheduler.Ledger | src/services/scheduler.js:206 | one delivery row per article in order, with consecutive ids |
| Scheduler.FailedBatchLeavesBoth | src/services/scheduler.js:201-223 | after a failed send every article of the batch has both a `sent` and a `failed` row |
| Scheduler.RecordFailures | src/services/scheduler.js:219-221 | one `failed` row with the error per article, in order; only the delivery id counter moves, by one per row |
| Scheduler.ComposeAndRecord | src/services/scheduler.js:194-207 | the batch messages are built and one `sent` row is recorded per article, in order; only the delivery id counter moves, by one per row |
| Scheduler.RecordFailedSend | src/services/scheduler.js:215-223 | after the `sent` rows, a failed send leaves exactly the ledger of the whole send: `sent` rows then one `failed` row with the error per article; the other tables are untouched and only the delivery id counter moves |
| Scheduler.SendArticlesToUser | src/services/scheduler.js:192-225 | the result is true exactly when the transport passes; the `sent` rows come first, followed by `failed` rows when it fails; only the delivery id counter moves, by one per row |
| Scheduler.ActiveUsers | src/services/scheduler.js:133-144 | exactly the active users |
| Scheduler.Decide | src/services/scheduler.js:103-116 | no articles changes nothing; otherwise pushed with the batch size exactly when the transport passes |
| Scheduler.OutcomeOf | src/services/scheduler.js:94-121 | a user whose local clock cannot be read (the time-zone conversion throws) is counted failed; otherwise a user out of the window is skipped; a pushed user sent one to five articles |
| Scheduler.Tally | src/services/scheduler.js:86-122 | the total is the number of users, and the success and failure counts are the numbers of pushed and failed outcomes |
| Scheduler.TallyCounted | src/services/scheduler.js:111-120 | successes plus failures never exceed the users seen |
| Scheduler.TallySent | src/services/scheduler.js:112-113 | articles sent lie between one and five per successful user |
| Scheduler.PassCounts | src/services/scheduler.js:83-122 | over a pass, successes plus failures are at most the total, and articles sent are between one and five per success |
| Scheduler.OutcomeIgnoresOthers | src/services/scheduler.js:93-122 | rows written for earlier users do not change a later user's outcome |
| Scheduler.ServeUser | src/services/scheduler.js:94-121 | a user's turn has the outcome the tables decide, and appends exactly the ledger of sending that user's batch (none when the clock cannot be read, when not due, when the query throws or when nothing is new), with the next ids; only the delivery id counter moves; batches use the corrected recency (see Findings) |
| Scheduler.DeliverArticlesToUsers | src/services/scheduler.js:78-131 | the counters tally every active user's outcome; the ledger becomes the old rows followed by each active user's send ledger in rowid order, each user's batch chosen against the ledger as the pass found it; the delivery id counter advances by the rows appended and no other counter moves; batches use the corrected recency (see Findings) |
| Scheduler.TurnBatchOfOutcome | src/services/scheduler.js:94-121 | a pushed user's batch holds the articles counted, a skipped user has none, and a failed user either had an unreadable clock or a throwing query and no batch, or a batch whose send failed |
| Scheduler.PassCoversBatches | src/services/scheduler.js:201-221 | after a pass, every article of a user's batch has a ledger row for that user, whether the send passed or failed |
| Scheduler.DeliveredNeverOffered | src/services/scheduler.js:171-177 | an article with a ledger row of any status for a user is never selected for that user |
| Scheduler.BatchNotOfferedAgain | src/services/scheduler.js:171-221 | an article in a due user's batch is never offered to that user again by any later pass, whatever its clock, tables or further rows |
| Scheduler.Sweep | src/services/scheduler.js:292-305 | a failed query deletes nothing and reports its error; otherwise exactly the expired rows go and their number is reported |
| Scheduler.FilterDisjoint | src/services/scheduler.js:283-286 | a second deletion with a disjoint condition sees the same rows as if it ran first |
| Scheduler.ArticleSweepsIndependent | src/services/scheduler.js:283-286 | the two article deletions never touch the same row, so their order does not matter |
| Scheduler.SweepDeliveries | src/services/scheduler.js:280 | the delivery sweep changes only the delivery table, by the sweep above; no id counter moves |
| Scheduler.SweepArticles | src/services/scheduler.js:283-286 | an article sweep changes only the article table, by the sweep above; no id counter moves |
| Scheduler.CleanupOldData | src/services/scheduler.js:276-308 | three independent reports: deliveries before 90 days, unprocessed articles before 7 days and processed articles before 30 days, each by strict `<`; no id counter moves |
| Scheduler.Scheduled | src/services/scheduler.js:58-76 | an accepted expression stores a running job under the name, replacing any old one; a rejected one retires the old job; other names are untouched |
| Scheduler.InitRegistersAll | src/services/scheduler.js:19-50 | init registers the feed-fetching, article-delivery and daily-cleanup jobs with their cron expressions |
| Scheduler.Scheduler.constructor | src/services/scheduler.js:8-11 | no jobs and not initialised |
| Scheduler.Scheduler.ScheduleJob | src/services/scheduler.js:58-76 | the registry becomes the scheduled map, and a replaced job is destroyed |
| Scheduler.Scheduler.Init | src/services/scheduler.js:13-56 | a second init changes nothing; a first registers the three jobs and sets the flag, destroying exactly the already registered jobs under the three names |
| Scheduler.Scheduler.StartJob | src/services/scheduler.js:327-335 | a known job is started, an unknown name changes nothing |
| Scheduler.Scheduler.StopJob | src/services/scheduler.js:337-345 | a known job is stopped, an unknown name changes nothing |
| Scheduler.Scheduler.GetJobStatus | src/services/scheduler.js:347-356 | exactly one entry per stored job, not running and scheduled |
| Scheduler.Scheduler.Destroy | src/services/scheduler.js:358-365 | every job is destroyed, the registry is emptied and the flag cleared |

## Left out

- HTTP, XML and HTML parsing are oracle values. This covers the axios fetch, the feedparser stream and its 45-second timeout, and the page fetch. cheerio's HTML-to-text is the function parameter `htmlText`. The removal of the `script`, `style`, `nav`, `header`, `footer` and `aside` elements and of the `.advertisement`, `.ads` and `.social-share` elements at articleExtractor.js:44 is not modelled: a `Page` stands for the page after that removal.
- The OpenAI chat calls are replies given as parameters: none without a client, a failure, or the content. The prompt texts are not modelled.
- The LINE client is not modelled. A push or reply is recorded in a log, and its outcome is a parameter.
- Each of the three calls that do not reach a method is an abstract outcome parameter:
  - `sendMessages` at scheduler.js:210;
  - `extract` at feedParser.js:177;
  - `cleanArticleData` inside the listener at feedParser.js:62.
- Concurrency is not modelled, and every pass runs sequentially:
  - the fire-and-forget `processArticleAsync` becomes the returned job list, with `FeedParser.ProcessArticle` run separately;
  - overlapping cron ticks are not modelled;
  - the callback counting in `cleanupOldData` becomes three reports in query order.
- node-cron is not modelled: cron timing, the Asia/Tokyo schedule time zone and whether an expression is valid (the parameter `accepts`). A task's own `running` flag is not kept, so `GetJobStatus` always reports `running: false`, as `job.running || false` does for a node-cron task. Starting or stopping a destroyed task is not modelled.
- Time-zone conversion is not modelled: `toLocaleString` for the user's local clock (the `localClock` parameter, which answers `None` where the conversion throws for a name that is not a time zone) and for the message time (the `timeOf` parameter). ISO date parsing is not modelled either: a feed item's date is valid or `NoDate`.
- SQLite I/O errors are not modelled, except in the cleanup queries, where each query may report an error. A failed `getActiveUsers` inside the delivery pass is not modelled (a failed article query is: `PassEnv.queryFails`), and neither is a failing `createArticle` inside the ingestion loop beyond its UNIQUE rejection.
- Foreign-key cascades are not modelled, because the code never enables foreign-key enforcement.
- `getUserByLineId` (database.js:150-161) is not modelled. It is a single-row lookup that none of the modelled services calls.
- `getStats` and `performDailyCleanup` are not modelled. They are aggregate counts for logging.
- The manual `trigger*` methods are not modelled. They only call the modelled passes.
- The `published_at` column is a number here and is never NULL.
- `Scheduler.IsoText` and `Scheduler.SqliteText` abstract the two timestamp texts to a day number, a separator and a time of day. This assumes a four-digit year, so the texts order by day first.
- `Scheduler.ToNumber` reads only the empty string and runs of decimal digits. `Number` also accepts signs, decimals, hexadecimal and exponents; a stored `HH:MM` setting never uses them.
- `Text.ToLower` and the `\w` class are ASCII-only. JavaScript lower-cases every script.
- String lengths count Unicode code points, while JavaScript counts UTF-16 units. The 10-, 20-, 100- and 200-character thresholds differ for characters outside the Basic Multilingual Plane.
- Summarizer.FallbackExtractKeywords: the order of keywords with equal counts is left open. `Object.entries` lists digit-only keys first.
- Summarizer.FallbackExtractKeywords: when `constructor` is among the words, its entry holds a string and every comparison with it is NaN, which `sort` takes as equal. JavaScript leaves the order of such a sort to the implementation, so the model sorts with its own insertion sort and then promises only the selection (distinct counted words, at most `maxKeywords`, all of them when fewer), not the ranking.
- Summarizer.ExtractKeywords: inherits that gap of the fallback when `constructor` occurs, and so does `FeedParser.ProcessArticle`.
- LineMessaging.CreateFlexSummaryMessage: only the fields the text message shares are modelled, not the bubble layout and colours.
- Scheduler.ArticleMessageLayout: states the head, the tail and that the body lies between them, not the exact blank lines of the template.

## Findings

| source | as written | input that shows it | evidently intended | confidence | as-written member | corrected member |
|---|---|---|---|---|---|---|
| src/services/scheduler.js:176 | `published_at` holds ISO text (`YYYY-MM-DDTHH:MM:SS.sssZ`) and is compared as text with SQLite's `datetime('now', '-24 hours')` (`YYYY-MM-DD HH:MM:SS`); `T` sorts after the space, so every article published on the cutoff's calendar day passes | published 00:30 on day 0 (t = 1800), checked at 12:00 on day 1 (now = 86400 + 43200): 35.5 hours old, yet selected | only articles published in the last 24 hours are selected | not executed | Scheduler.AsWrittenAdmitsOlderThanADay | Scheduler.ArticlesForUser |
