/**
 * The LINE messaging service: whether a client exists, the summary push with
 * its flex-to-text fallback, the text and flex message builders, and the
 * webhook dispatch over the closed set of event kinds.
 *
 * The LINE client is an oracle: a push or a reply is recorded in the returned
 * log and its outcome is given by a parameter (`Pass`, or `Fail` with the
 * thrown error's message). `Date.now()` is the parameter `nowMs`, and
 * `new URL(text)` succeeding is the parameter `parsesAsUrl`.
 */
module LineMessaging {
  import opened Wrappers
  import opened Text
  import Summarizer

  // ---------------------------------------------------------- configuration

  /** The constructor builds a client only when both credentials are set and non-empty. */
  predicate IsConfigured(accessToken: Option<string>, channelSecret: Option<string>) {
    && accessToken.Some? && accessToken.value != []
    && channelSecret.Some? && channelSecret.value != []
  }

  const NotConfiguredError: string := "LINE client not configured"

  /** A missing or empty credential leaves the service without a client, and every
      send then reports the configuration error without pushing anything. */
  lemma MissingCredentialDisables(accessToken: Option<string>, channelSecret: Option<string>,
                                  userId: string, article: ArticleRef, summary: Summarizer.Summary,
                                  push: Push -> Outcome<string>, nowMs: nat)
    requires accessToken in {None, Some("")} || channelSecret in {None, Some("")}
    ensures !IsConfigured(accessToken, channelSecret)
    ensures SendSummary(IsConfigured(accessToken, channelSecret), userId, article, summary, push, nowMs)
      == Attempt(NotSent(NotConfiguredError), [])
    ensures SendFlexSummary(IsConfigured(accessToken, channelSecret), userId, article, summary, push, nowMs)
      == Attempt(NotSent(NotConfiguredError), [])
  {
  }

  // --------------------------------------------------------------- messages

  /** The fields of an outgoing message the model keeps. */
  datatype Message =
    | TextMessage(text: string)
    | FlexMessage(altText: string, header: string, title: string, summaryText: string,
                  buttonLabel: string, buttonUri: string, footer: string)

  /** The article fields the builders read. */
  datatype ArticleRef = ArticleRef(title: string, url: string)

  /** `formatSummaryMessage`. */
  function FormatSummaryMessage(article: ArticleRef, summary: Summarizer.Summary): (m: Message)
    ensures m.TextMessage?
  {
    TextMessage("📰 " + article.title + "\n\n📝 要約 (" + summary.level + "):\n" + summary.summary
                + "\n\n🔗 元記事: " + article.url + "\n\n📊 文字数: " + NatToString(summary.wordCount) + "語")
  }

  /** The text message names the title, the level, the summary, the URL and the word count. */
  lemma SummaryMessageMentions(article: ArticleRef, summary: Summarizer.Summary)
    ensures var t := FormatSummaryMessage(article, summary).text;
      && Contains(t, article.title) && Contains(t, summary.level) && Contains(t, summary.summary)
      && Contains(t, article.url) && Contains(t, NatToString(summary.wordCount))
  {
    MentionsEach(
      "📰 ", article.title, "\n\n📝 要約 (", summary.level, "):\n", summary.summary,
      "\n\n🔗 元記事: ", article.url, "\n\n📊 文字数: ", NatToString(summary.wordCount), "語");
  }

  /** A text laid out as fixed pieces around five fields contains each field. */
  lemma MentionsEach(p0: string, a: string, p1: string, b: string, p2: string, c: string,
                     p3: string, d: string, p4: string, e: string, p5: string)
    ensures var t := p0 + a + p1 + b + p2 + c + p3 + d + p4 + e + p5;
      Contains(t, a) && Contains(t, b) && Contains(t, c) && Contains(t, d) && Contains(t, e)
  {
    ContainsAtEnd(p0, a);
    ContainsExtend(p0 + a, p1, a);
    ContainsExtend(p0 + a + p1, b, a);
    ContainsExtend(p0 + a + p1 + b, p2, a);
    ContainsExtend(p0 + a + p1 + b + p2, c, a);
    ContainsExtend(p0 + a + p1 + b + p2 + c, p3, a);
    ContainsExtend(p0 + a + p1 + b + p2 + c + p3, d, a);
    ContainsExtend(p0 + a + p1 + b + p2 + c + p3 + d, p4, a);
    ContainsExtend(p0 + a + p1 + b + p2 + c + p3 + d + p4, e, a);
    ContainsExtend(p0 + a + p1 + b + p2 + c + p3 + d + p4 + e, p5, a);
    ContainsAtEnd(p0 + a + p1, b);
    ContainsExtend(p0 + a + p1 + b, p2, b);
    ContainsExtend(p0 + a + p1 + b + p2, c, b);
    ContainsExtend(p0 + a + p1 + b + p2 + c, p3, b);
    ContainsExtend(p0 + a + p1 + b + p2 + c + p3, d, b);
    ContainsExtend(p0 + a + p1 + b + p2 + c + p3 + d, p4, b);
    ContainsExtend(p0 + a + p1 + b + p2 + c + p3 + d + p4, e, b);
    ContainsExtend(p0 + a + p1 + b + p2 + c + p3 + d + p4 + e, p5, b);
    ContainsAtEnd(p0 + a + p1 + b + p2, c);
    ContainsExtend(p0 + a + p1 + b + p2 + c, p3, c);
    ContainsExtend(p0 + a + p1 + b + p2 + c + p3, d, c);
    ContainsExtend(p0 + a + p1 + b + p2 + c + p3 + d, p4, c);
    ContainsExtend(p0 + a + p1 + b + p2 + c + p3 + d + p4, e, c);
    ContainsExtend(p0 + a + p1 + b + p2 + c + p3 + d + p4 + e, p5, c);
    ContainsAtEnd(p0 + a + p1 + b + p2 + c + p3, d);
    ContainsExtend(p0 + a + p1 + b + p2 + c + p3 + d, p4, d);
    ContainsExtend(p0 + a + p1 + b + p2 + c + p3 + d + p4, e, d);
    ContainsExtend(p0 + a + p1 + b + p2 + c + p3 + d + p4 + e, p5, d);
    ContainsAtEnd(p0 + a + p1 + b + p2 + c + p3 + d + p4, e);
    ContainsExtend(p0 + a + p1 + b + p2 + c + p3 + d + p4 + e, p5, e);
  }

  /** `createFlexSummaryMessage`, reduced to its texts and its link. */
  function CreateFlexSummaryMessage(article: ArticleRef, summary: Summarizer.Summary): (m: Message)
    ensures m.FlexMessage?
  {
    FlexMessage(
      "📰 " + article.title,
      "📰 News Summary",
      article.title,
      summary.summary,
      "元記事を読む",
      article.url,
      "要約レベル: " + summary.level + " | 文字数: " + NatToString(summary.wordCount) + "語")
  }

  /** The flex message's alternative text is the title behind the newspaper mark, its
      button opens the article, and its title, summary and link are the ones the text
      message of the same article carries. */
  lemma FlexMatchesText(article: ArticleRef, summary: Summarizer.Summary)
    ensures var f := CreateFlexSummaryMessage(article, summary);
      var t := FormatSummaryMessage(article, summary).text;
      && f.altText == "📰 " + article.title && StartsWith(t, f.altText)
      && f.buttonUri == article.url && Contains(t, f.buttonUri)
      && f.title == article.title && Contains(t, f.title)
      && f.summaryText == summary.summary && Contains(t, f.summaryText)
      && Contains(f.footer, summary.level)
  {
    SummaryMessageMentions(article, summary);
    var t := FormatSummaryMessage(article, summary).text;
    assert t[..|"📰 " + article.title|] == "📰 " + article.title;
    var p0, p1 := "要約レベル: ", " | 文字数: " + NatToString(summary.wordCount) + "語";
    assert CreateFlexSummaryMessage(article, summary).footer == p0 + summary.level + p1;
    ContainsMiddle(p0, summary.level, p1);
  }

  // ------------------------------------------------------------------ pushes

  datatype Push = Push(to: string, message: Message)

  /** What a send returns: `{success: true, messageId}` or `{success: false, error}`. */
  datatype SendResult = Sent(messageId: string) | NotSent(error: string)

  /** A send's result together with the pushes it made, in order. */
  datatype Attempt = Attempt(result: SendResult, pushes: seq<Push>)

  /** `sendSummary`. `push` gives the outcome of each push. */
  function SendSummary(configured: bool, userId: string, article: ArticleRef, summary: Summarizer.Summary,
                       push: Push -> Outcome<string>, nowMs: nat): (a: Attempt)
    ensures !configured ==> a == Attempt(NotSent(NotConfiguredError), [])
    ensures configured ==>
      && a.pushes == [Push(userId, FormatSummaryMessage(article, summary))]
      && (a.result.Sent? <==> push(a.pushes[0]).Pass?)
      && (a.result.NotSent? ==> a.result.error == push(a.pushes[0]).error)
    ensures a.result.Sent? ==> a.result.messageId == NatToString(nowMs)
  {
    if !configured then Attempt(NotSent(NotConfiguredError), [])
    else
      var p := Push(userId, FormatSummaryMessage(article, summary));
      match push(p)
      case Pass => Attempt(Sent(NatToString(nowMs)), [p])
      case Fail(e) => Attempt(NotSent(e), [p])
  }

  /** `sendFlexSummary`: push the flex message, and on failure send the text summary. */
  function SendFlexSummary(configured: bool, userId: string, article: ArticleRef, summary: Summarizer.Summary,
                           push: Push -> Outcome<string>, nowMs: nat): (a: Attempt)
    ensures !configured ==> a == Attempt(NotSent(NotConfiguredError), [])
    ensures configured ==>
      && 1 <= |a.pushes| <= 2
      && a.pushes[0] == Push(userId, CreateFlexSummaryMessage(article, summary))
      && (|a.pushes| == 2 <==> push(a.pushes[0]).Fail?)
  {
    if !configured then Attempt(NotSent(NotConfiguredError), [])
    else
      var p := Push(userId, CreateFlexSummaryMessage(article, summary));
      match push(p)
      case Pass => Attempt(Sent(NatToString(nowMs)), [p])
      case Fail(_) =>
        var fallback := SendSummary(configured, userId, article, summary, push, nowMs);
        Attempt(fallback.result, [p] + fallback.pushes)
  }

  /** A configured flex send succeeds exactly when one of its pushes succeeds, and it
      falls back to the text summary only after the flex push fails. */
  lemma FlexFallsBackToText(userId: string, article: ArticleRef, summary: Summarizer.Summary,
                            push: Push -> Outcome<string>, nowMs: nat)
    ensures var a := SendFlexSummary(true, userId, article, summary, push, nowMs);
      var flex := Push(userId, CreateFlexSummaryMessage(article, summary));
      var text := Push(userId, FormatSummaryMessage(article, summary));
      && (a.result.Sent? <==> (push(flex).Pass? || push(text).Pass?))
      && (push(flex).Pass? ==> a.pushes == [flex])
      && (push(flex).Fail? ==> a.pushes == [flex, text]
                                && a == Attempt(SendSummary(true, userId, article, summary, push, nowMs).result, [flex, text]))
  {
  }

  // ------------------------------------------------------------------ events

  datatype IncomingMessage = IncomingText(text: string) | OtherMessage(messageType: string)

  /** The webhook event kinds the service tells apart. */
  datatype Event =
    | MessageEvent(replyToken: string, message: IncomingMessage)
    | FollowEvent(replyToken: string)
    | UnfollowEvent(userId: string)
    | OtherEvent(eventType: string)

  /** The canned replies. */
  datatype Reply = HelpReply | UsageReply | ProcessingReply | DefaultReply | WelcomeReply

  function ReplyText(r: Reply): string {
    match r
    case HelpReply =>
      "📖 News LINE ヘルプ\n\n🔗 記事URL送信\nニュース記事のURLを送信すると要約をお送りします。\n\n💬 コマンド\n• 「ヘルプ」- このメッセージを表示\n• 「要約」- 使用方法を確認\n\n📧 お問い合わせ\n何かご不明な点がございましたら、サポートまでお問い合わせください。"
    case UsageReply =>
      "記事のURLを送信してください。自動的に要約してお送りします。\n\n使用方法:\nhttps://example.com/news-article"
    case ProcessingReply =>
      "記事を処理中です。少々お待ちください..."
    case DefaultReply =>
      "こんにちは！👋\n\nニュース記事のURLを送信してください。自動的に要約してお送りします。\n\n「ヘルプ」と送信すると詳しい使い方を確認できます。"
    case WelcomeReply =>
      "News LINEへようこそ！🎉\n\nニュース記事のURLを送信すると、自動的に要約してお送りします。\n\n「ヘルプ」と送信すると使い方を確認できます。"
  }

  predicate AsksHelp(lower: string) {
    Contains(lower, "help") || Contains(lower, "ヘルプ")
  }

  predicate AsksSummary(lower: string) {
    Contains(lower, "summary") || Contains(lower, "要約")
  }

  /** The reply to a text message, chosen on its lower-cased text. */
  function ChooseReply(text: string, parsesAsUrl: string -> bool): Reply
  {
    var lower := ToLower(text);
    if AsksHelp(lower) then HelpReply
    else if AsksSummary(lower) then UsageReply
    else if parsesAsUrl(lower) then ProcessingReply
    else DefaultReply
  }

  /** Help wins over the usage request, which wins over a URL, which wins over the
      default; each reply is chosen exactly when its test is the first to pass. */
  lemma ReplyPriority(text: string, parsesAsUrl: string -> bool)
    ensures var lower, r := ToLower(text), ChooseReply(text, parsesAsUrl);
      && (r == HelpReply <==> AsksHelp(lower))
      && (r == UsageReply <==> !AsksHelp(lower) && AsksSummary(lower))
      && (r == ProcessingReply <==> !AsksHelp(lower) && !AsksSummary(lower) && parsesAsUrl(lower))
      && (r == DefaultReply <==> !AsksHelp(lower) && !AsksSummary(lower) && !parsesAsUrl(lower))
      && r != WelcomeReply
  {
  }

  /** "HELP me" asks for help whatever the URL parser says. */
  lemma UpperCaseHelp(parsesAsUrl: string -> bool)
    ensures ChooseReply("HELP me", parsesAsUrl) == HelpReply
  {
    assert ToLower("HELP me") == "help me";
    assert StartsWith("help me", "help");
  }

  /** What `handleEvent` resolves to: `{success: true, message}`, or `{success: false,
      error}` when the reply call throws and `handleWebhook` catches it. */
  datatype EventResult = Handled(message: string) | EventFailed(error: string)

  datatype ReplySent = ReplySent(replyToken: string, reply: Reply)

  datatype Handling = Handling(result: EventResult, replies: seq<ReplySent>)

  /** The reply an event calls for, if any. */
  function ReplyFor(event: Event, parsesAsUrl: string -> bool): (r: Option<ReplySent>)
    ensures r.Some? <==> (event.MessageEvent? && event.message.IncomingText?) || event.FollowEvent?
  {
    match event
    case MessageEvent(token, IncomingText(text)) => Some(ReplySent(token, ChooseReply(text, parsesAsUrl)))
    case MessageEvent(_, OtherMessage(_)) => None
    case FollowEvent(token) => Some(ReplySent(token, WelcomeReply))
    case UnfollowEvent(_) => None
    case OtherEvent(_) => None
  }

  /** `handleEvent` with its handlers. `replyOutcome` is the outcome of the reply call. */
  function HandleEvent(event: Event, parsesAsUrl: string -> bool, replyOutcome: Outcome<string>): (h: Handling)
    ensures |h.replies| <= 1
    ensures h.replies == [] <==> ReplyFor(event, parsesAsUrl).None?
    ensures h.replies != [] ==> h.replies[0] == ReplyFor(event, parsesAsUrl).value
    ensures h.result.EventFailed? <==> h.replies != [] && replyOutcome.Fail?
    ensures h.result.EventFailed? ==> h.result.error == replyOutcome.error
  {
    var reply := ReplyFor(event, parsesAsUrl);
    match reply
    case None =>
      var message :=
        match event
        case MessageEvent(_, _) => "Non-text message ignored"
        case UnfollowEvent(_) => "User unfollowed"
        case _ => "Event ignored";
      Handling(Handled(message), [])
    case Some(sent) =>
      var message := if event.FollowEvent? then "Welcome message sent" else "Reply sent";
      match replyOutcome
      case Pass => Handling(Handled(message), [sent])
      case Fail(e) => Handling(EventFailed(e), [sent])
  }

  /** An unfollow sends nothing and succeeds; an event of another type is ignored. */
  lemma QuietEvents(userId: string, eventType: string, parsesAsUrl: string -> bool, replyOutcome: Outcome<string>)
    ensures HandleEvent(UnfollowEvent(userId), parsesAsUrl, replyOutcome) == Handling(Handled("User unfollowed"), [])
    ensures HandleEvent(OtherEvent(eventType), parsesAsUrl, replyOutcome) == Handling(Handled("Event ignored"), [])
  {
  }

  /** The reply an event calls for, as the list of replies it sends. */
  function RepliesOf(event: Event, parsesAsUrl: string -> bool): (r: seq<ReplySent>)
    ensures |r| <= 1
  {
    match ReplyFor(event, parsesAsUrl)
    case Some(sent) => [sent]
    case None => []
  }

  /** The replies the first `n` events send, in event order. */
  function RepliesUpTo(events: seq<Event>, parsesAsUrl: string -> bool, n: nat): (r: seq<ReplySent>)
    requires n <= |events|
    ensures |r| <= n
    ensures forall k :: 0 <= k < n && ReplyFor(events[k], parsesAsUrl).Some? ==>
      ReplyFor(events[k], parsesAsUrl).value in r
    decreases n
  {
    if n == 0 then []
    else RepliesUpTo(events, parsesAsUrl, n - 1) + RepliesOf(events[n - 1], parsesAsUrl)
  }

  /** Every reply of a batch answers one of its events. */
  lemma {:induction false} RepliesAnswerEvents(events: seq<Event>, parsesAsUrl: string -> bool, n: nat)
    requires n <= |events|
    ensures forall x :: x in RepliesUpTo(events, parsesAsUrl, n) ==>
      exists k :: 0 <= k < n && ReplyFor(events[k], parsesAsUrl) == Some(x)
    decreases n
  {
    if n > 0 {
      RepliesAnswerEvents(events, parsesAsUrl, n - 1);
    }
  }

  /** `handleWebhook`: nothing when unconfigured; otherwise one result per event, in
      order, each decided by its own event and reply outcome alone, so a failing
      event does not stop the ones after it, and the replies are sent in event
      order. `replyOutcome(i)` is the outcome of the reply to the `i`-th event. */
  method HandleWebhook(configured: bool, events: seq<Event>, parsesAsUrl: string -> bool,
                       replyOutcome: nat -> Outcome<string>)
    returns (results: seq<EventResult>, replies: seq<ReplySent>)
    ensures !configured ==> results == [] && replies == []
    ensures configured ==> |results| == |events|
    ensures configured ==> forall i :: 0 <= i < |events| ==>
      results[i] == HandleEvent(events[i], parsesAsUrl, replyOutcome(i)).result
    ensures configured ==> replies == RepliesUpTo(events, parsesAsUrl, |events|)
  {
    results, replies := [], [];
    if !configured {
      return;
    }
    for i := 0 to |events|
      invariant WebhookProgress(events, parsesAsUrl, replyOutcome, i, results, replies)
    {
      results, replies := HandleNext(events, parsesAsUrl, replyOutcome, i, results, replies);
    }
  }

  /** After the first `i` events: one result per event, and their replies in order. */
  ghost predicate WebhookProgress(events: seq<Event>, parsesAsUrl: string -> bool, replyOutcome: nat -> Outcome<string>,
                                  i: nat, results: seq<EventResult>, replies: seq<ReplySent>) {
    && i <= |events| && |results| == i
    && (forall j :: 0 <= j < i ==> results[j] == HandleEvent(events[j], parsesAsUrl, replyOutcome(j)).result)
    && replies == RepliesUpTo(events, parsesAsUrl, i)
  }

  /** One turn of the `for ... of events` loop. */
  method HandleNext(events: seq<Event>, parsesAsUrl: string -> bool, replyOutcome: nat -> Outcome<string>,
                    i: nat, results: seq<EventResult>, replies: seq<ReplySent>)
    returns (nextResults: seq<EventResult>, nextReplies: seq<ReplySent>)
    requires i < |events|
    requires WebhookProgress(events, parsesAsUrl, replyOutcome, i, results, replies)
    ensures WebhookProgress(events, parsesAsUrl, replyOutcome, i + 1, nextResults, nextReplies)
  {
    var h := HandleEvent(events[i], parsesAsUrl, replyOutcome(i));
    HandlingReplies(events[i], parsesAsUrl, replyOutcome(i));
    nextResults := results + [h.result];
    nextReplies := replies + h.replies;
    assert forall j :: 0 <= j < i ==> nextResults[j] == results[j];
  }

  /** The replies an event's handling sends are the ones it calls for. */
  lemma HandlingReplies(event: Event, parsesAsUrl: string -> bool, replyOutcome: Outcome<string>)
    ensures HandleEvent(event, parsesAsUrl, replyOutcome).replies == RepliesOf(event, parsesAsUrl)
  {
  }
}
