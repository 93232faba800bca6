/**
 * The article extractor: URL validation, the first-match selector search for
 * the title and the main text, the metadata fallback chains, the defaults of
 * the extracted record and the whitespace normaliser `cleanText`.
 *
 * The HTML document is abstracted to what the extractor asks of it: the text
 * of the first element each selector matches, the texts of all paragraphs,
 * and the value of an attribute on the first element a selector matches.
 */
module ArticleExtractor {
  import opened Wrappers
  import opened Text

  /** A metadata lookup: `$(selector).attr(attribute)`. */
  datatype AttrQuery = AttrQuery(selector: string, attribute: string)

  /** A fetched page, after the removal of scripts, styles, navigation and adverts. */
  datatype Page = Page(
    firstText: map<string, string>,       // selector -> text of its first match; absent when nothing matches
    paragraphs: seq<string>,              // text of every `p` element in document order
    attributes: map<AttrQuery, string>)   // query -> attribute value; absent when undefined

  /** The record `extractContent` returns. */
  datatype ExtractedArticle = ExtractedArticle(
    title: string, content: string, url: string,
    publishDate: string, author: string, description: string)

  datatype Metadata = Metadata(url: string, description: string, author: string, publishDate: string)

  const TitleSelectors: seq<string> := ["h1", ".article-title", ".entry-title", ".post-title", "title"]

  const ContentSelectors: seq<string> :=
    [".article-content", ".entry-content", ".post-content", ".content", "article", ".main-content", "#content"]

  /** Minimum trimmed length of a selector's text, and of the paragraph fallback. */
  const MinContentLength: nat := 100
  /** Minimum trimmed length of a paragraph kept by the fallback. */
  const MinParagraphLength: nat := 20

  const UrlQueries: seq<AttrQuery> :=
    [AttrQuery("meta[property=\"og:url\"]", "content"), AttrQuery("link[rel=\"canonical\"]", "href")]
  const DescriptionQueries: seq<AttrQuery> :=
    [AttrQuery("meta[property=\"og:description\"]", "content"), AttrQuery("meta[name=\"description\"]", "content")]
  const AuthorQueries: seq<AttrQuery> :=
    [AttrQuery("meta[name=\"author\"]", "content"), AttrQuery("meta[property=\"article:author\"]", "content")]
  const PublishDateQueries: seq<AttrQuery> :=
    [AttrQuery("meta[property=\"article:published_time\"]", "content"),
     AttrQuery("meta[name=\"publish-date\"]", "content"),
     AttrQuery("time[datetime]", "datetime")]

  const ExtractionFailedPrefix: string := "Article extraction failed: "
  const InvalidUrlMessage: string := "Invalid URL provided"

  // ---------------------------------------------------------------- cleanText

  /** No whitespace other than ' ', and never two whitespace characters in a row. */
  ghost predicate SingleSpaced(s: string) {
    && (forall i :: 0 <= i < |s| && IsSpace(s[i]) ==> s[i] == ' ')
    && (forall i :: 0 <= i < |s| - 1 ==> !IsSpace(s[i]) || !IsSpace(s[i + 1]))
  }

  /** `s.replace(/\s+/g, ' ')`: every maximal whitespace run becomes one space
      (`CollapseSpacesJoin` states where). */
  function CollapseSpaces(s: string): (r: string)
    ensures SingleSpaced(r)
    ensures r == [] <==> s == []
    ensures r != [] ==> (IsSpace(r[0]) <==> IsSpace(s[0]))
    ensures Strip(r, Whitespace) == Strip(s, Whitespace)
    decreases |s|
  {
    if s == [] then []
    else if IsSpace(s[0]) then
      var rest := SkipRun(s, Whitespace);
      StripRun(s, Whitespace);
      var c := CollapseSpaces(rest);
      SpaceCons(c);
      StripCons(' ', c);
      [' '] + c
    else
      var c := CollapseSpaces(s[1..]);
      WordCharCons(s[0], c);
      StripCons(s[0], c);
      StripCons(s[0], s[1..]);
      [s[0]] + c
  }

  /** Each whitespace run becomes one space at its place: the result is the
      pieces between the runs, the empty ones at either end included, joined
      by single spaces. */
  lemma {:induction false} CollapseSpacesJoin(s: string)
    ensures CollapseSpaces(s) == Join(SplitRuns(s, Whitespace), " ")
    decreases |s|
  {
    if s == [] {
      assert SplitRuns(s, Whitespace) == [s];
    } else if IsSpace(s[0]) {
      var rest := SkipRun(s, Whitespace);
      CollapseSpacesJoin(rest);
      SplitRunsJoinAtRun(s, Whitespace, " ");
    } else {
      CollapseSpacesJoin(s[1..]);
      SplitRunsJoinAtChar(s, Whitespace, " ");
    }
  }

  /** A single space in front of a single-spaced text that does not start with
      whitespace keeps it single-spaced. */
  lemma SpaceCons(c: string)
    requires SingleSpaced(c) && (c == [] || !IsSpace(c[0]))
    ensures SingleSpaced([' '] + c)
  {
    var r := [' '] + c;
    forall i | 1 <= i < |r|
      ensures r[i] == c[i - 1]
    {
    }
  }

  /** A non-whitespace character in front of a single-spaced text keeps it single-spaced. */
  lemma WordCharCons(x: char, c: string)
    requires SingleSpaced(c) && !IsSpace(x)
    ensures SingleSpaced([x] + c)
  {
    var r := [x] + c;
    forall i | 1 <= i < |r|
      ensures r[i] == c[i - 1]
    {
    }
  }

  /** Stripping takes the characters one at a time. */
  lemma StripCons(x: char, c: string)
    ensures Strip([x] + c, Whitespace) == (if IsSpace(x) then [] else [x]) + Strip(c, Whitespace)
  {
    assert ([x] + c)[1..] == c;
  }

  /** `cleanText`: collapse whitespace runs, then trim. The second replacement of the
      source (`/\n\s*\n/g` to two line breaks) cannot match once every whitespace
      character is a space, so it is the identity here. */
  function CleanText(s: string): string
  {
    Trim(CollapseSpaces(s))
  }

  lemma SingleSpacedSlice(s: string, i: nat, j: nat)
    requires SingleSpaced(s) && i <= j <= |s|
    ensures SingleSpaced(s[i..j])
  {
    var t := s[i..j];
    forall k | 0 <= k < |t| - 1
      ensures !IsSpace(t[k]) || !IsSpace(t[k + 1])
    {
      assert t[k] == s[i + k] && t[k + 1] == s[i + k + 1];
    }
  }

  /** `cleanText` leaves no whitespace at either end, only single spaces inside,
      and keeps every non-whitespace character in order. */
  lemma CleanTextShape(s: string)
    ensures var r := CleanText(s);
      && SingleSpaced(r)
      && (r == [] || (!IsSpace(r[0]) && !IsSpace(r[|r| - 1])))
      && (r == [] <==> AllSpace(s))
  {
    var c := CollapseSpaces(s);
    TrimShape(c);
    TrimSingleSpaced(c);
    CollapseKeepsAllSpace(s);
  }

  lemma TrimSingleSpaced(c: string)
    requires SingleSpaced(c)
    ensures SingleSpaced(Trim(c))
  {
    var r := Trim(c);
    var off := TrimOffset(c);
    TrimShape(c);
    SingleSpacedSlice(c, off, off + |r|);
  }

  lemma CollapseKeepsAllSpace(s: string)
    ensures AllSpace(CollapseSpaces(s)) <==> AllSpace(s)
  {
    var c := CollapseSpaces(s);
    if AllSpace(s) {
      AllSpaceStrip(s);
      if !AllSpace(c) {
        var i :| 0 <= i < |c| && !IsSpace(c[i]);
        NonSpaceSurvivesStrip(c, i);
      }
    } else {
      var i :| 0 <= i < |s| && !IsSpace(s[i]);
      NonSpaceSurvivesStrip(s, i);
      if AllSpace(c) {
        AllSpaceStrip(c);
      }
    }
  }

  lemma {:induction false} AllSpaceStrip(s: string)
    requires AllSpace(s)
    ensures Strip(s, Whitespace) == []
    decreases |s|
  {
    if s != [] {
      AllSpaceStrip(s[1..]);
    }
  }

  lemma {:induction false} NonSpaceSurvivesStrip(s: string, i: nat)
    requires i < |s| && !IsSpace(s[i])
    ensures Strip(s, Whitespace) != []
    decreases |s|
  {
    if i > 0 {
      NonSpaceSurvivesStrip(s[1..], i - 1);
    }
  }

  lemma {:induction false} CollapseSingleSpaced(s: string)
    requires SingleSpaced(s)
    ensures CollapseSpaces(s) == s
    decreases |s|
  {
    if s != [] {
      SingleSpacedSlice(s, 1, |s|);
      CollapseSingleSpaced(s[1..]);
      if IsSpace(s[0]) {
        assert SkipRun(s, Whitespace) == s[1..] by {
          assert |s| == 1 || !IsSpace(s[1]);
          assert SkipRun(s, Whitespace) == SkipRun(s[1..], Whitespace);
        }
      }
    }
  }

  /** Cleaning cleaned text changes nothing. */
  lemma CleanTextIdempotent(s: string)
    ensures CleanText(CleanText(s)) == CleanText(s)
  {
    var r := CleanText(s);
    CleanTextShape(s);
    CollapseSingleSpaced(r);
    TrimIdempotent(CollapseSpaces(s));
  }

  // ------------------------------------------------------ first-match searches

  datatype Rule = TitleRule | ContentRule

  /** The first match of `selector` exists and its trimmed text passes `rule`:
      non-empty for a title, longer than 100 characters for the main text. */
  predicate Hit(page: Page, selector: string, rule: Rule) {
    && selector in page.firstText
    && match rule
       case TitleRule => Trim(page.firstText[selector]) != []
       case ContentRule => |Trim(page.firstText[selector])| > MinContentLength
  }

  /** The index of the first selector that hits, or `|selectors|` when none does. */
  function FirstHit(page: Page, selectors: seq<string>, rule: Rule): (k: nat)
    ensures k <= |selectors|
    ensures forall j :: 0 <= j < k ==> !Hit(page, selectors[j], rule)
    ensures k < |selectors| ==> Hit(page, selectors[k], rule)
  {
    if selectors == [] || Hit(page, selectors[0], rule) then 0
    else 1 + FirstHit(page, selectors[1..], rule)
  }

  /** `extractTitle`: the trimmed text of the first title selector whose first match
      has non-empty trimmed text, else null. */
  function ExtractTitle(page: Page): (r: Option<string>)
    ensures r.Some? ==> r.value != []
  {
    var k := FirstHit(page, TitleSelectors, TitleRule);
    if k < |TitleSelectors| then Some(Trim(page.firstText[TitleSelectors[k]])) else None
  }

  /** The title is null exactly when no selector hits; otherwise it is the trimmed
      text of the first selector, in order, that hits, and it is already trimmed. */
  lemma ExtractTitleFirstMatch(page: Page)
    ensures var r := ExtractTitle(page);
      && (r.None? <==> forall i :: 0 <= i < |TitleSelectors| ==> !Hit(page, TitleSelectors[i], TitleRule))
      && (r.Some? ==>
            exists i ::
              && 0 <= i < |TitleSelectors| && Hit(page, TitleSelectors[i], TitleRule)
              && (forall j :: 0 <= j < i ==> !Hit(page, TitleSelectors[j], TitleRule))
              && r.value == Trim(page.firstText[TitleSelectors[i]]))
      && (r.Some? ==> Trim(r.value) == r.value)
  {
    var k := FirstHit(page, TitleSelectors, TitleRule);
    if k < |TitleSelectors| {
      TrimIdempotent(page.firstText[TitleSelectors[k]]);
    }
  }

  /** The paragraph fallback: trimmed paragraphs longer than 20 characters,
      joined by a blank line. */
  function ParagraphText(paragraphs: seq<string>): string
  {
    Join(LongParagraphs(paragraphs), "\n\n")
  }

  function LongParagraphs(paragraphs: seq<string>): (r: seq<string>)
    ensures forall i :: 0 <= i < |r| ==> |r[i]| > MinParagraphLength
  {
    if paragraphs == [] then []
    else
      var p := Trim(paragraphs[0]);
      var rest := LongParagraphs(paragraphs[1..]);
      if |p| > MinParagraphLength then [p] + rest else rest
  }

  /** `paragraphs.map(p => p.trim()).filter(p => p.length > 20)` keeps exactly the
      trimmed paragraphs longer than 20 characters. */
  lemma {:induction false} LongParagraphsExactly(paragraphs: seq<string>)
    ensures forall x :: x in LongParagraphs(paragraphs) <==>
      exists q :: q in paragraphs && x == Trim(q) && |x| > MinParagraphLength
    decreases |paragraphs|
  {
    if paragraphs != [] {
      var tail := paragraphs[1..];
      LongParagraphsExactly(tail);
      assert forall q :: q in paragraphs <==> q == paragraphs[0] || q in tail;
    }
  }

  /** `extractMainContent`: the cleaned text of the first content selector whose first
      match is longer than 100 characters once trimmed; otherwise the cleaned paragraph
      fallback when that is longer than 100 characters; otherwise null. */
  function ExtractMainContent(page: Page): (r: Option<string>)
  {
    var k := FirstHit(page, ContentSelectors, ContentRule);
    if k < |ContentSelectors| then Some(CleanText(Trim(page.firstText[ContentSelectors[k]])))
    else
      var content := ParagraphText(page.paragraphs);
      if |content| > MinContentLength then Some(CleanText(content)) else None
  }

  /** The main text comes from the first selector, in order, whose trimmed text is
      long enough; only when none is does the paragraph fallback decide. */
  lemma ExtractMainContentFirstMatch(page: Page)
    ensures (exists i :: 0 <= i < |ContentSelectors| && Hit(page, ContentSelectors[i], ContentRule)) ==>
      (exists i :: 0 <= i < |ContentSelectors| && Hit(page, ContentSelectors[i], ContentRule)
        && (forall j :: 0 <= j < i ==> !Hit(page, ContentSelectors[j], ContentRule))
        && ExtractMainContent(page) == Some(CleanText(Trim(page.firstText[ContentSelectors[i]]))))
    ensures (forall i :: 0 <= i < |ContentSelectors| ==> !Hit(page, ContentSelectors[i], ContentRule)) ==>
      ExtractMainContent(page) == if |ParagraphText(page.paragraphs)| > MinContentLength
                                  then Some(CleanText(ParagraphText(page.paragraphs))) else None
  {
    var k := FirstHit(page, ContentSelectors, ContentRule);
  }

  // ------------------------------------------------------------------ metadata

  predicate AttrSet(page: Page, q: AttrQuery) {
    q in page.attributes && page.attributes[q] != []
  }

  function FirstSet(page: Page, queries: seq<AttrQuery>): (k: nat)
    ensures k <= |queries|
    ensures forall j :: 0 <= j < k ==> !AttrSet(page, queries[j])
    ensures k < |queries| ==> AttrSet(page, queries[k])
  {
    if queries == [] || AttrSet(page, queries[0]) then 0
    else 1 + FirstSet(page, queries[1..])
  }

  /** `a || b || ... || ''`: the first non-empty value among the alternatives, else ''. */
  function FirstValue(page: Page, queries: seq<AttrQuery>): (r: string)
    ensures r == [] <==> forall i :: 0 <= i < |queries| ==> !AttrSet(page, queries[i])
    ensures r != [] ==>
      exists i ::
        && 0 <= i < |queries| && AttrSet(page, queries[i])
        && (forall j :: 0 <= j < i ==> !AttrSet(page, queries[j]))
        && r == page.attributes[queries[i]]
  {
    var k := FirstSet(page, queries);
    if k < |queries| then page.attributes[queries[k]] else ""
  }

  /** `extractMetadata`. */
  function ExtractMetadata(page: Page): Metadata
  {
    Metadata(
      FirstValue(page, UrlQueries),
      FirstValue(page, DescriptionQueries),
      FirstValue(page, AuthorQueries),
      FirstValue(page, PublishDateQueries))
  }

  /** `extractContent`: the extracted fields with their defaults. `nowIso` stands for
      `new Date().toISOString()`, the default publication date. */
  function ExtractContent(page: Page, nowIso: string): (a: ExtractedArticle)
    ensures a.title != [] && a.content != [] && a.author != []
    ensures ExtractTitle(page).None? ==> a.title == "No title found"
    ensures ExtractTitle(page).Some? ==> a.title == ExtractTitle(page).value
    ensures ExtractMainContent(page).None? || ExtractMainContent(page).value == [] ==>
      a.content == "No content found"
    ensures ExtractMainContent(page).Some? && ExtractMainContent(page).value != [] ==>
      a.content == ExtractMainContent(page).value
    ensures ExtractMetadata(page).author == [] ==> a.author == "Unknown"
    ensures ExtractMetadata(page).author != [] ==> a.author == ExtractMetadata(page).author
    ensures ExtractMetadata(page).publishDate == [] ==> a.publishDate == nowIso
    ensures ExtractMetadata(page).publishDate != [] ==> a.publishDate == ExtractMetadata(page).publishDate
    ensures a.url == ExtractMetadata(page).url && a.description == ExtractMetadata(page).description
  {
    var title := ExtractTitle(page);
    var content := ExtractMainContent(page);
    var meta := ExtractMetadata(page);
    ExtractedArticle(
      title.GetOr("No title found"),
      if content.Some? && content.value != [] then content.value else "No content found",
      meta.url,
      if meta.publishDate != [] then meta.publishDate else nowIso,
      if meta.author != [] then meta.author else "Unknown",
      meta.description)
  }

  // ---------------------------------------------------------- URL and extract

  /** `isValidUrl`: `new URL(s)` succeeded (given as the parsed protocol) with an
      http or https protocol. */
  predicate IsValidUrl(protocol: Option<string>) {
    protocol == Some("http:") || protocol == Some("https:")
  }

  /** `extractFromUrl`. `protocol` is the protocol `new URL(url)` yields (None when it
      throws) and `fetch` the outcome of the HTTP GET with the parsed page. */
  function ExtractFromUrl(protocol: Option<string>, fetch: Result<Page, string>, nowIso: string)
    : (r: Result<ExtractedArticle, string>)
    ensures r.Failure? ==> StartsWith(r.error, ExtractionFailedPrefix)
    ensures !IsValidUrl(protocol) ==> r == Failure(ExtractionFailedPrefix + InvalidUrlMessage)
    ensures IsValidUrl(protocol) ==>
      r == match fetch
           case Success(page) => Success(ExtractContent(page, nowIso))
           case Failure(e) => Failure(ExtractionFailedPrefix + e)
  {
    if !IsValidUrl(protocol) then Failure(ExtractionFailedPrefix + InvalidUrlMessage)
    else match fetch
      case Success(page) => Success(ExtractContent(page, nowIso))
      case Failure(e) => Failure(ExtractionFailedPrefix + e)
  }

  /** A string that is not a URL is rejected with a message containing 'Invalid URL',
      whatever the fetch would have returned. */
  lemma RejectsInvalidUrl(fetch: Result<Page, string>, nowIso: string)
    ensures var r := ExtractFromUrl(None, fetch, nowIso);
      r.Failure? && Contains(r.error, "Invalid URL")
  {
    var e := ExtractionFailedPrefix + InvalidUrlMessage;
    assert e == ExtractionFailedPrefix + "Invalid URL" + " provided";
    ContainsMiddle(ExtractionFailedPrefix, "Invalid URL", " provided");
  }

  /** A page whose first `h1` reads "My Title" yields that title. */
  lemma TitleFromH1(article: string)
    ensures ExtractTitle(Page(map["h1" := "My Title", "article" := article], [], map[])) == Some("My Title")
  {
    var page := Page(map["h1" := "My Title", "article" := article], [], map[]);
    TrimTrimmed("My Title");
    assert Hit(page, TitleSelectors[0], TitleRule);
    assert FirstHit(page, TitleSelectors, TitleRule) == 0;
  }
}
