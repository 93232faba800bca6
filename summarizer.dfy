/**
 * The summariser: the table of summary levels, the sentence-based fallback
 * summary, the OpenAI path taken as an oracle reply, the parsing of a keyword
 * reply, and the word-frequency keyword extractor.
 *
 * An OpenAI call is given as `Option<Result<string, string>>`: `None` when no
 * API key was configured (no client), `Failure` when the request throws or the
 * reply has no content, `Success(content)` with the reply's message content.
 */
module Summarizer {
  import opened Wrappers
  import opened Text
  import opened Sorting

  // ------------------------------------------------------------ level table

  /** An entry of `summaryLevels`: a level's own settings, or a member the object
      literal inherits from `Object.prototype`, which is truthy (so `|| standard`
      keeps it) and has neither `sentences` nor `maxTokens`. */
  datatype LevelConfig = LevelConfig(sentences: nat, maxTokens: nat) | Inherited

  /** The names every object literal inherits from `Object.prototype` in Node. */
  const InheritedNames: set<string> := {
    "constructor", "__proto__", "toString", "toLocaleString", "valueOf", "hasOwnProperty",
    "isPrototypeOf", "propertyIsEnumerable", "__defineGetter__", "__defineSetter__",
    "__lookupGetter__", "__lookupSetter__"}

  /** `summaryLevels[level] || summaryLevels.standard`. */
  function ConfigFor(level: string): LevelConfig
  {
    if level == "brief" then LevelConfig(2, 150)
    else if level == "detailed" then LevelConfig(8, 500)
    else if level in InheritedNames then Inherited
    else LevelConfig(4, 300)
  }

  /** brief keeps 2 sentences, standard 4 and detailed 8; an inherited member name
      finds that member, and any other level is treated as standard, so every
      level with settings keeps at least two sentences. */
  lemma LevelTable(level: string)
    ensures ConfigFor("brief") == LevelConfig(2, 150)
    ensures ConfigFor("standard") == LevelConfig(4, 300)
    ensures ConfigFor("detailed") == LevelConfig(8, 500)
    ensures ConfigFor(level).Inherited? <==> level in InheritedNames
    ensures level != "brief" && level != "detailed" && level !in InheritedNames ==>
      ConfigFor(level) == ConfigFor("standard")
    ensures ConfigFor(level).LevelConfig? ==> ConfigFor(level).sentences >= 2
  {
  }

  // ------------------------------------------------------- fallback summary

  const NoContentSummary: string := "No content available for summarization."

  /** The object `summarize` and `fallbackSummarize` return. */
  datatype Summary = Summary(summary: string, methodName: string, level: string, wordCount: nat)

  /** A sentence is kept when its trimmed length exceeds 10. */
  predicate Qualifies(segment: string) {
    |Trim(segment)| > 10
  }

  /** `segments.filter(s => s.trim().length > 10)`. */
  function Qualifying(segments: seq<string>): (r: seq<string>)
    ensures |r| <= |segments|
    ensures forall i :: 0 <= i < |r| ==> Qualifies(r[i]) && r[i] in segments
    ensures forall s :: s in segments && Qualifies(s) ==> s in r
  {
    if segments == [] then []
    else (if Qualifies(segments[0]) then [segments[0]] else []) + Qualifying(segments[1..])
  }

  /** The untrimmed pieces of `text` between runs of `.`, `!` and `?` that qualify. */
  function Sentences(text: string): (r: seq<string>)
    ensures forall i :: 0 <= i < |r| ==> Qualifies(r[i]) && FreeOf(r[i], Terminators)
  {
    Qualifying(SplitRuns(text, Terminators))
  }

  /** `sentences.slice(0, config.sentences)`: the first sentences, in order, up to
      the level's count, or all of them when the count is `undefined`. */
  function Selected(text: string, level: string): (r: seq<string>)
    ensures |r| == if ConfigFor(level).LevelConfig? && ConfigFor(level).sentences < |Sentences(text)|
                   then ConfigFor(level).sentences else |Sentences(text)|
    ensures r == Sentences(text)[..|r|]
    ensures Sentences(text) != [] ==> r != []
    ensures forall i :: 0 <= i < |r| ==> Qualifies(r[i]) && FreeOf(r[i], Terminators)
  {
    var all := Sentences(text);
    var config := ConfigFor(level);
    if config.LevelConfig? && config.sentences < |all| then all[..config.sentences] else all
  }

  /** `fallbackSummarize`. */
  function FallbackSummarize(text: string, level: string): (r: Summary)
    ensures r.methodName == "fallback" && r.level == level
    ensures EndsWith(r.summary, ".")
    ensures Sentences(text) == [] ==> r.summary == NoContentSummary
    ensures (r.wordCount == 0) == (Sentences(text) == [])
    ensures Sentences(text) != [] ==> r.summary == Trim(Join(Selected(text, level), ". ")) + "."
  {
    var sentences := Sentences(text);
    if sentences == [] then
      Summary(NoContentSummary, "fallback", level, 0)
    else
      var selected := Selected(text, level);
      var summary := Trim(Join(selected, ". "));
      SummaryEndsInSentence(selected);
      Summary(WithPeriod(summary), "fallback", level, |SplitOn(summary, ' ')|)
  }

  /** `summary + (summary.endsWith('.') ? '' : '.')`: the text ends in a period,
      and a text whose last character is no terminator gains exactly one. */
  function WithPeriod(summary: string): (r: string)
    ensures EndsWith(r, ".")
    ensures summary != [] && !InClass(summary[|summary| - 1], Terminators) ==> r == summary + "."
  {
    var ending: string := if EndsWith(summary, ".") then "" else ".";
    summary + ending
  }

  /** A fallback summary of a text with sentences counts one word more than the
      summary has spaces. */
  lemma FallbackWordCount(text: string, level: string)
    requires Sentences(text) != []
    ensures FallbackSummarize(text, level).wordCount == multiset(FallbackSummarize(text, level).summary)[' '] + 1
  {
    WordsOfSentenceSummary(Trim(Join(Selected(text, level), ". ")));
  }

  /** The words counted before the period is appended are the spaces of the
      finished summary plus one. */
  lemma WordsOfSentenceSummary(summary: string)
    ensures |SplitOn(summary, ' ')| == multiset(summary + ".")[' '] + 1
  {
    SplitOnCount(summary, ' ');
    assert multiset(summary + ".") == multiset(summary) + multiset{'.'};
  }

  /** The joined selection, trimmed, is non-empty and ends in a character of its last
      sentence, so never in `.`, `!` or `?`: the fallback always appends one period. */
  lemma SummaryEndsInSentence(selected: seq<string>)
    requires |selected| >= 1
    requires forall i :: 0 <= i < |selected| ==> Qualifies(selected[i]) && FreeOf(selected[i], Terminators)
    ensures var t := Trim(Join(selected, ". "));
      t != [] && !InClass(t[|t| - 1], Terminators)
  {
    JoinEndsWithLast(selected, ". ");
    EndsInLast(Join(selected, ". "), selected[|selected| - 1]);
  }

  /** A text ending in a qualifying sentence trims to one ending inside that sentence. */
  lemma EndsInLast(x: string, last: string)
    requires EndsWith(x, last) && Qualifies(last) && FreeOf(last, Terminators)
    ensures Trim(x) != [] && !InClass(Trim(x)[|Trim(x)| - 1], Terminators)
  {
    NotAllSpace(last);
    TrimLastInSuffix(x, last);
    FreeOfMember(last, Trim(x)[|Trim(x)| - 1], Terminators);
  }

  lemma FreeOfMember(s: string, c: char, k: CharClass)
    requires FreeOf(s, k) && c in s
    ensures !InClass(c, k)
  {
  }

  /** A qualifying sentence is not blank. */
  lemma NotAllSpace(s: string)
    requires Qualifies(s)
    ensures !AllSpace(s)
  {
    TrimShape(s);
  }

  lemma {:induction false} JoinEndsWithLast(parts: seq<string>, sep: string)
    requires |parts| >= 1
    ensures EndsWith(Join(parts, sep), parts[|parts| - 1])
    decreases |parts|
  {
    if |parts| > 1 {
      JoinEndsWithLast(parts[1..], sep);
      var rest := Join(parts[1..], sep);
      var j := Join(parts, sep);
      assert j == parts[0] + sep + rest;
      assert j[|j| - |rest|..] == rest;
    }
  }

  /** When `x` ends with `l` and `l` holds a non-space character, the last character
      `trim` keeps lies inside `l`. */
  lemma TrimLastInSuffix(x: string, l: string)
    requires EndsWith(x, l) && !AllSpace(l)
    ensures Trim(x) != [] && Trim(x)[|Trim(x)| - 1] in l
  {
    var r := Trim(x);
    var j := TrimOffset(x);
    TrimBounds(x);
    var q :| 0 <= q < |l| && !IsSpace(l[q]);
    var qx := |x| - |l| + q;
    assert x[qx] == l[q];
    assert j <= qx < j + |r|;
    var p := j + |r| - 1;
    assert r[|r| - 1] == x[p];
    assert x[p] == l[p - (|x| - |l|)];
  }

  /** `summarize`: blank text and a missing or failing OpenAI client fall back; an
      OpenAI reply is trimmed and its words counted by splitting on ' '. */
  function Summarize(text: string, level: string, reply: Option<Result<string, string>>): (r: Summary)
    ensures (AllSpace(text) || reply.None? || reply.value.Failure?) ==> r == FallbackSummarize(text, level)
    ensures !AllSpace(text) && reply.Some? && reply.value.Success? ==>
      && r.methodName == "openai" && r.level == level
      && r.summary == Trim(reply.value.value)
      && r.wordCount == multiset(r.summary)[' '] + 1
  {
    TrimShape(text);
    if Trim(text) == [] then FallbackSummarize(text, level)
    else match reply
      case None => FallbackSummarize(text, level)
      case Some(Failure(_)) => FallbackSummarize(text, level)
      case Some(Success(content)) =>
        var summary := Trim(content);
        SplitOnCount(summary, ' ');
        Summary(summary, "openai", level, |SplitOn(summary, ' ')|)
  }

  /** Blank text never reaches OpenAI and yields the no-content fallback. */
  lemma BlankTextSummary(text: string, level: string, reply: Option<Result<string, string>>)
    requires AllSpace(text)
    ensures Summarize(text, level, reply) == Summary(NoContentSummary, "fallback", level, 0)
  {
    var segments := SplitRuns(text, Terminators);
    SplitRunsChars(text, Terminators);
    forall i | 0 <= i < |segments|
      ensures !Qualifies(segments[i])
    {
      TrimShape(segments[i]);
    }
    assert Sentences(text) == [];
  }

  /** Every piece of a split on runs is made of characters of the input. */
  lemma SplitRunsChars(s: string, k: CharClass)
    ensures forall i, c :: 0 <= i < |SplitRuns(s, k)| && c in SplitRuns(s, k)[i] ==> c in s
  {
    SplitRunsKeepsText(s, k);
    forall i, c | 0 <= i < |SplitRuns(s, k)| && c in SplitRuns(s, k)[i]
      ensures c in s
    {
      ConcatMember(SplitRuns(s, k), i, c);
      StripMember(s, k, c);
    }
  }

  // -------------------------------------------------------- keyword replies

  /** `keywordsText.split(',').map(k => k.trim()).filter(k => k.length > 0)`. */
  function ParseKeywords(reply: string): (r: seq<string>)
    ensures forall i :: 0 <= i < |r| ==> r[i] != [] && Trimmed(r[i]) && ',' !in r[i]
  {
    SplitOnPieces(Trim(reply), ',');
    NonEmptyTrimmed(SplitOn(Trim(reply), ','))
  }

  function NonEmptyTrimmed(parts: seq<string>): (r: seq<string>)
    ensures forall i :: 0 <= i < |r| ==> r[i] != [] && Trimmed(r[i])
    ensures (forall i :: 0 <= i < |parts| ==> ',' !in parts[i]) ==>
      forall i :: 0 <= i < |r| ==> ',' !in r[i]
  {
    if parts == [] then []
    else
      var p := Trim(parts[0]);
      TrimShape(parts[0]);
      TrimKeepsAbsent(parts[0], ',');
      assert forall i :: 0 <= i < |parts| - 1 ==> parts[1..][i] == parts[i + 1];
      var rest := NonEmptyTrimmed(parts[1..]);
      if p == [] then rest else [p] + rest
  }

  /** `trim` adds no character. */
  lemma TrimKeepsAbsent(s: string, c: char)
    ensures c !in s ==> c !in Trim(s)
  {
    TrimShape(s);
  }

  /** A keyword reply written as the list joined by ", " parses back to the list. */
  lemma KeywordReplyRoundTrip(keywords: seq<string>)
    requires forall i :: 0 <= i < |keywords| ==> keywords[i] != [] && Trimmed(keywords[i]) && ',' !in keywords[i]
    ensures ParseKeywords(Join(keywords, ", ")) == keywords
  {
    var x := Join(keywords, ", ");
    if keywords != [] {
      JoinTrimmed(keywords, ", ");
    }
    TrimTrimmed(x);
    ParseJoined(keywords);
  }

  lemma ParseJoined(keywords: seq<string>)
    requires forall i :: 0 <= i < |keywords| ==> keywords[i] != [] && Trimmed(keywords[i]) && ',' !in keywords[i]
    ensures NonEmptyTrimmed(SplitOn(Join(keywords, ", "), ',')) == keywords
  {
    assert "" + Join(keywords, ", ") == Join(keywords, ", ");
    ParsePadded("", keywords);
  }

  /** Joining trimmed, non-empty words gives a trimmed text. */
  lemma JoinTrimmed(parts: seq<string>, sep: string)
    requires |parts| >= 1
    requires parts[0] != [] && Trimmed(parts[0])
    requires parts[|parts| - 1] != [] && Trimmed(parts[|parts| - 1])
    ensures Trimmed(Join(parts, sep))
  {
    var x := Join(parts, sep);
    var first := parts[0];
    var last := parts[|parts| - 1];
    JoinEndsWithLast(parts, sep);
    JoinStartsWithFirst(parts, sep);
    assert x[0] == x[..|first|][0] == first[0];
    assert x[|x| - 1] == x[|x| - |last|..][|last| - 1] == last[|last| - 1];
  }

  lemma JoinStartsWithFirst(parts: seq<string>, sep: string)
    requires |parts| >= 1
    ensures StartsWith(Join(parts, sep), parts[0])
  {
  }

  /** `trim` removes leading padding from an already trimmed non-empty word. */
  lemma TrimPadded(pad: string, k: string)
    requires AllSpace(pad) && k != [] && Trimmed(k)
    ensures Trim(pad + k) == k
  {
    var x := pad + k;
    assert x[|pad|] == k[0];
    assert forall j :: 0 <= j < |pad| ==> x[j] == pad[j];
    SpaceRunEndAt(x, 0, |pad|);
    assert x[|x| - 1] == k[|k| - 1];
    assert SpaceRunStart(x, |pad|, |x|) == |x|;
    assert x[|pad|..] == k;
  }

  lemma {:induction false} ParsePadded(pad: string, keywords: seq<string>)
    requires AllSpace(pad) && ',' !in pad
    requires forall i :: 0 <= i < |keywords| ==> keywords[i] != [] && Trimmed(keywords[i]) && ',' !in keywords[i]
    ensures NonEmptyTrimmed(SplitOn(pad + Join(keywords, ", "), ',')) == keywords
    decreases |keywords|
  {
    if keywords == [] {
      assert pad + Join(keywords, ", ") == pad;
      ParsePaddedNone(pad);
    } else if |keywords| == 1 {
      assert pad + Join(keywords, ", ") == pad + keywords[0];
      ParsePaddedOne(pad, keywords[0]);
    } else {
      var rest := Join(keywords[1..], ", ");
      assert pad + Join(keywords, ", ") == pad + (keywords[0] + ", " + rest);
      ParsePadded(" ", keywords[1..]);
      ParsePaddedCons(pad, keywords[0], rest, keywords[1..]);
      HeadTail(keywords);
    }
  }

  lemma ParsePaddedNone(pad: string)
    requires AllSpace(pad) && ',' !in pad
    ensures NonEmptyTrimmed(SplitOn(pad, ',')) == []
  {
    TrimShape(pad);
  }

  lemma ParsePaddedOne(pad: string, k: string)
    requires AllSpace(pad) && ',' !in pad
    requires k != [] && Trimmed(k) && ',' !in k
    ensures NonEmptyTrimmed(SplitOn(pad + k, ',')) == [k]
  {
    var x := pad + k;
    assert ',' !in x by {
      assert forall i :: 0 <= i < |x| ==> x[i] == if i < |pad| then pad[i] else k[i - |pad|];
    }
    assert SplitOn(x, ',') == [x];
    TrimPadded(pad, k);
    assert NonEmptyTrimmed([x]) == [Trim(x)];
  }

  /** One step of `ParsePadded`: the first keyword, then what the rest parses to. */
  lemma ParsePaddedCons(pad: string, k: string, rest: string, tail: seq<string>)
    requires AllSpace(pad) && ',' !in pad
    requires k != [] && Trimmed(k) && ',' !in k
    requires NonEmptyTrimmed(SplitOn(" " + rest, ',')) == tail
    ensures NonEmptyTrimmed(SplitOn(pad + (k + ", " + rest), ',')) == [k] + tail
  {
    var x := pad + (k + ", " + rest);
    Regroup(pad, k, rest);
    SplitAtFirst(x, pad + k, " " + rest, ',');
    TrimPadded(pad, k);
    NonEmptyTrimmedCons(pad + k, SplitOn(" " + rest, ','));
  }

  lemma Regroup(pad: string, k: string, rest: string)
    ensures pad + (k + ", " + rest) == (pad + k) + [','] + (" " + rest)
  {
  }

  /** `NonEmptyTrimmed` takes the parts one at a time. */
  lemma NonEmptyTrimmedCons(a: string, parts: seq<string>)
    ensures NonEmptyTrimmed([a] + parts) ==
      (if Trim(a) == [] then [] else [Trim(a)]) + NonEmptyTrimmed(parts)
  {
    assert ([a] + parts)[1..] == parts;
  }

  // ------------------------------------------------------ keyword frequency

  const StopWords: set<string> := {
    "this", "that", "with", "have", "will", "from", "they", "been",
    "were", "said", "each", "which", "their", "time", "would", "there",
    "could", "other", "after", "first", "well", "many", "some", "what",
    "when", "where", "much", "should", "very", "through", "just", "being"}

  /** JavaScript's `\w`: ASCII letters, digits and the underscore. */
  predicate IsWordChar(c: char) {
    ('a' <= c <= 'z') || ('A' <= c <= 'Z') || ('0' <= c <= '9') || c == '_'
  }

  /** `s.replace(/[^\w\s]/g, '')`. */
  function KeepWordAndSpace(s: string): (r: string)
    ensures forall c :: c in r ==> (IsWordChar(c) || IsSpace(c)) && c in s
  {
    if s == [] then []
    else (if IsWordChar(s[0]) || IsSpace(s[0]) then [s[0]] else []) + KeepWordAndSpace(s[1..])
  }

  /** `words.filter(word => word.length > 3)`. */
  function LongWords(words: seq<string>): (r: seq<string>)
    ensures forall i :: 0 <= i < |r| ==> |r[i]| > 3 && r[i] in words
    ensures forall w :: w in words && |w| > 3 ==> w in r
  {
    if words == [] then []
    else (if |words[0]| > 3 then [words[0]] else []) + LongWords(words[1..])
  }

  /** The words the counter visits, in text order. */
  function Words(text: string): seq<string>
  {
    LongWords(SplitRuns(KeepWordAndSpace(ToLower(text)), Whitespace))
  }

  /** Longer than 3 characters, made of `\w` characters, with no upper-case letter. */
  predicate KeywordShape(w: string) {
    |w| > 3 && forall i :: 0 <= i < |w| ==> IsWordChar(w[i]) && !('A' <= w[i] <= 'Z')
  }

  lemma WordsShape(text: string)
    ensures forall w :: w in Words(text) ==> KeywordShape(w)
  {
    var kept := KeepWordAndSpace(ToLower(text));
    var tokens := SplitRuns(kept, Whitespace);
    SplitRunsChars(kept, Whitespace);
    forall w | w in Words(text)
      ensures KeywordShape(w)
    {
      var t :| 0 <= t < |tokens| && tokens[t] == w;
      forall i | 0 <= i < |w|
        ensures IsWordChar(w[i]) && !('A' <= w[i] <= 'Z')
      {
        assert w[i] in kept;
        assert !InClass(w[i], Whitespace);
        KeptLowerChar(text, w[i]);
      }
    }
  }

  /** A character kept from the lower-cased text that is not a space is a `\w`
      character and no upper-case letter. */
  lemma KeptLowerChar(text: string, c: char)
    requires c in KeepWordAndSpace(ToLower(text)) && !InClass(c, Whitespace)
    ensures IsWordChar(c) && !('A' <= c <= 'Z')
  {
    var lower := ToLower(text);
    var j :| 0 <= j < |lower| && lower[j] == c;
    assert c == LowerChar(text[j]);
  }

  /** The two lower-case words that name properties a plain `{}` already has:
      `__proto__` (its prototype) and `constructor` (the `Object` function). */
  const ProtoKey: string := "__proto__"
  const ConstructorKey: string := "constructor"

  /** A word the counter ends up holding: it occurs in the text, is not a stop
      word, and is not `__proto__`, whose assignment on a plain `{}` sets the
      prototype to a string, which the setter ignores. */
  predicate Candidate(words: seq<string>, w: string) {
    w in words && w !in StopWords && w != ProtoKey
  }

  function Occurrences(words: seq<string>, w: string): nat {
    multiset(words)[w]
  }

  /** What `fallbackExtractKeywords` promises of its result `r` whatever the
      counts: distinct counted words, cut at `max` the way `slice(0, max)` cuts,
      and all of them when fewer than `max` exist. */
  ghost predicate IsKeywordSelection(words: seq<string>, max: int, r: seq<string>) {
    && NoRepeats(r)
    && (0 <= max ==> |r| <= max)
    && (forall i :: 0 <= i < |r| ==> Candidate(words, r[i]))
    && (0 <= max && |r| < max ==> forall w :: Candidate(words, w) ==> w in r)
  }

  /** A selection ordered by count: the most frequent words first, none left out
      that occurs more often than one returned (a tie between equal counts may
      be broken either way). */
  ghost predicate IsKeywordRanking(words: seq<string>, max: int, r: seq<string>) {
    && IsKeywordSelection(words, max, r)
    && (forall i, j :: 0 <= i < j < |r| ==> Occurrences(words, r[i]) >= Occurrences(words, r[j]))
    && (forall w :: Candidate(words, w) && w !in r ==>
          forall i :: 0 <= i < |r| ==> Occurrences(words, r[i]) >= Occurrences(words, w))
  }

  /** A value of `wordCount`: a number, or, for `constructor`, the string that
      `(wordCount[word] || 0) + 1` makes of the inherited `Object` function, which
      `b - a` turns into NaN. */
  datatype Tally = Number(n: nat) | NotANumber

  function TallyOf(counts: map<string, Tally>, w: string): Tally {
    if w in counts then counts[w] else Number(0)
  }

  function CountIn(counts: map<string, Tally>, w: string): nat {
    match TallyOf(counts, w)
    case Number(n) => n
    case NotANumber => 0
  }

  /** The comparator `([, a], [, b]) => b - a`: larger counts first; a NaN
      result counts as `+0`, so an entry that is not a number ties with every
      other entry. */
  function ByCount(counts: map<string, Tally>): (string, string) -> bool
  {
    (a: string, b: string) =>
      TallyOf(counts, a).NotANumber? || TallyOf(counts, b).NotANumber? ||
      CountIn(counts, a) >= CountIn(counts, b)
  }

  /** With numbers only, the comparator is a valid total preorder. */
  lemma ByCountTotal(counts: map<string, Tally>)
    requires forall w :: w in counts ==> counts[w].Number?
    ensures TotalPreorder(ByCount(counts))
  {
  }

  /** With an entry that is not a number, the comparator is no longer transitive,
      so the order `sort` produces is left to the implementation. */
  lemma NotANumberBreaksOrder()
    ensures !TotalPreorder(ByCount(map["apple" := Number(1), ConstructorKey := NotANumber, "banana" := Number(3)]))
  {
    var counts := map["apple" := Number(1), ConstructorKey := NotANumber, "banana" := Number(3)];
    var le := ByCount(counts);
    assert |"apple"| == 5 && |"banana"| == 6 && |ConstructorKey| == 11;
    assert TallyOf(counts, "apple") == Number(1) && TallyOf(counts, "banana") == Number(3);
    assert le("apple", ConstructorKey) && le(ConstructorKey, "banana") && !le("apple", "banana");
  }

  /** `fallbackExtractKeywords`: count every non-stop word, then take the `maxKeywords`
      most frequent. `entries` lists the counted words once each, as `Object.entries`
      does. When `constructor` is among the words the sort compares NaN, and only
      the selection is promised. */
  method FallbackExtractKeywords(text: string, maxKeywords: int) returns (keywords: seq<string>)
    ensures IsKeywordSelection(Words(text), maxKeywords, keywords)
    ensures ConstructorKey !in Words(text) ==> IsKeywordRanking(Words(text), maxKeywords, keywords)
    ensures forall i :: 0 <= i < |keywords| ==> KeywordShape(keywords[i])
  {
    var words := Words(text);
    var counts, entries := CountWords(words);
    var sorted := SortBy(entries, ByCount(counts));
    keywords := SliceTo(sorted, maxKeywords);
    SelectionOfSorted(words, counts, entries, maxKeywords);
    if ConstructorKey !in words {
      RankingOfSorted(words, counts, entries, maxKeywords);
    }
    WordsShape(text);
  }

  /** `counts` and `entries` are what the counter holds after visiting `words`. */
  ghost predicate CountsOf(words: seq<string>, counts: map<string, Tally>, entries: seq<string>) {
    && (forall w :: w in counts <==> Candidate(words, w))
    && (forall w :: w in counts && w != ConstructorKey ==> counts[w] == Number(Occurrences(words, w)))
    && (ConstructorKey in counts ==> counts[ConstructorKey] == NotANumber)
    && (forall w :: w in entries <==> w in counts)
    && NoRepeats(entries)
  }

  /** The `forEach` that fills `wordCount`: every counted word is mapped to its
      number of occurrences, except `constructor`, which holds a string, and
      `entries` lists each counted word once. */
  method CountWords(words: seq<string>) returns (counts: map<string, Tally>, entries: seq<string>)
    ensures forall w :: w in counts <==> Candidate(words, w)
    ensures forall w :: w in counts && w != ConstructorKey ==> counts[w] == Number(Occurrences(words, w))
    ensures ConstructorKey in counts ==> counts[ConstructorKey] == NotANumber
    ensures forall w :: w in entries <==> w in counts
    ensures NoRepeats(entries)
  {
    counts := map[];
    entries := [];
    for i := 0 to |words|
      invariant CountsOf(words[..i], counts, entries)
    {
      counts, entries := CountWord(words, i, counts, entries);
    }
    assert words[..|words|] == words;
  }

  /** One visit of the `forEach`: `wordCount[word] = (wordCount[word] || 0) + 1`
      for a word that is neither a stop word nor `__proto__`. */
  method CountWord(words: seq<string>, i: nat, counts: map<string, Tally>, entries: seq<string>)
    returns (next: map<string, Tally>, nextEntries: seq<string>)
    requires i < |words|
    requires CountsOf(words[..i], counts, entries)
    ensures CountsOf(words[..i + 1], next, nextEntries)
  {
    var word := words[i];
    var counted := word !in StopWords && word != ProtoKey;
    next, nextEntries := counts, entries;
    if counted {
      if word !in counts {
        NoRepeatsSnoc(entries, word);
        nextEntries := entries + [word];
      }
      next := counts[word := Bumped(counts, word)];
    }
    StepKeys(words, i, counts, next, counted);
    StepCounts(words, i, counts, next, counted);
    StepEntries(word, counts, entries, next, nextEntries, counted);
  }

  /** The value `(wordCount[word] || 0) + 1` stores: one more for a number, and a
      string again for `constructor`. */
  function Bumped(counts: map<string, Tally>, word: string): Tally {
    if word == ConstructorKey then NotANumber else Number(CountIn(counts, word) + 1)
  }

  /** One more word: its count grows by one and no other count changes. */
  lemma CountStep(words: seq<string>, i: nat)
    requires i < |words|
    ensures forall w :: Occurrences(words[..i + 1], w) == Occurrences(words[..i], w) + (if w == words[i] then 1 else 0)
    ensures forall w :: w in words[..i + 1] <==> w in words[..i] || w == words[i]
  {
    assert words[..i + 1] == words[..i] + [words[i]];
  }

  /** The counter holds exactly the counted words visited so far. */
  lemma StepKeys(words: seq<string>, i: nat, counts: map<string, Tally>, next: map<string, Tally>, counted: bool)
    requires i < |words|
    requires counted == (words[i] !in StopWords && words[i] != ProtoKey)
    requires forall w :: w in counts <==> Candidate(words[..i], w)
    requires counted ==> next == counts[words[i] := Bumped(counts, words[i])]
    requires !counted ==> next == counts
    ensures forall w :: w in next <==> Candidate(words[..i + 1], w)
  {
    CountStep(words, i);
  }

  /** Every counted word other than `constructor` maps to its occurrences. */
  lemma StepCounts(words: seq<string>, i: nat, counts: map<string, Tally>, next: map<string, Tally>, counted: bool)
    requires i < |words|
    requires counted == (words[i] !in StopWords && words[i] != ProtoKey)
    requires forall w :: w in counts <==> Candidate(words[..i], w)
    requires forall w :: w in counts && w != ConstructorKey ==> counts[w] == Number(Occurrences(words[..i], w))
    requires counted ==> next == counts[words[i] := Bumped(counts, words[i])]
    requires !counted ==> next == counts
    ensures forall w :: w in next && w != ConstructorKey ==> next[w] == Number(Occurrences(words[..i + 1], w))
  {
    CountStep(words, i);
    var word := words[i];
    if counted && word !in counts && word != ConstructorKey {
      assert word !in words[..i];
    }
  }

  /** `entries` lists every key of the counter once. */
  lemma StepEntries(word: string, counts: map<string, Tally>, entries: seq<string>,
                    next: map<string, Tally>, nextEntries: seq<string>, counted: bool)
    requires forall w :: w in entries <==> w in counts
    requires counted ==> next == counts[word := Bumped(counts, word)]
    requires counted ==> nextEntries == if word in counts then entries else entries + [word]
    requires !counted ==> next == counts && nextEntries == entries
    ensures forall w :: w in nextEntries <==> w in next
  {
  }

  /** The sorted, sliced entries of a complete count are a keyword selection,
      whatever the comparator does. */
  lemma SelectionOfSorted(words: seq<string>, counts: map<string, Tally>, entries: seq<string>, max: int)
    requires forall w :: w in counts <==> Candidate(words, w)
    requires forall w :: w in entries <==> w in counts
    requires NoRepeats(entries)
    ensures IsKeywordSelection(words, max, SliceTo(SortBy(entries, ByCount(counts)), max))
  {
    var sorted := SortBy(entries, ByCount(counts));
    SameElements(entries, sorted);
    assert NoRepeats(sorted);
    SelectionOfPrefix(words, sorted, SliceTo(sorted, max), max);
  }

  /** With numbers only, the sorted, sliced entries are a keyword ranking. */
  lemma RankingOfSorted(words: seq<string>, counts: map<string, Tally>, entries: seq<string>, max: int)
    requires forall w :: w in counts <==> Candidate(words, w)
    requires forall w :: w in counts && w != ConstructorKey ==> counts[w] == Number(Occurrences(words, w))
    requires ConstructorKey !in words
    requires forall w :: w in entries <==> w in counts
    requires NoRepeats(entries)
    ensures IsKeywordRanking(words, max, SliceTo(SortBy(entries, ByCount(counts)), max))
  {
    var le := ByCount(counts);
    var sorted := SortBy(entries, le);
    ByCountTotal(counts);
    SortBySorted(entries, le);
    SameElements(entries, sorted);
    assert NoRepeats(sorted);
    PrefixOrdered(words, counts, sorted);
    RankingOfPrefix(words, sorted, SliceTo(sorted, max), max);
  }

  /** A prefix of the candidates listed without repeats and by falling number of
      occurrences, cut at `max` the way `slice(0, max)` cuts, is a keyword ranking. */
  lemma RankingOfPrefix(words: seq<string>, sorted: seq<string>, r: seq<string>, max: int)
    requires |r| <= |sorted| && r == sorted[..|r|]
    requires 0 <= max ==> |r| == if max < |sorted| then max else |sorted|
    requires NoRepeats(sorted)
    requires forall w :: w in sorted <==> Candidate(words, w)
    requires forall i, j :: 0 <= i < j < |sorted| ==> Occurrences(words, sorted[i]) >= Occurrences(words, sorted[j])
    ensures IsKeywordRanking(words, max, r)
  {
    SelectionOfPrefix(words, sorted, r, max);
    PrefixAhead(words, sorted, |r|);
    forall i, j | 0 <= i < j < |r|
      ensures Occurrences(words, r[i]) >= Occurrences(words, r[j])
    {
      assert r[i] == sorted[i] && r[j] == sorted[j];
    }
  }

  /** A prefix of the candidates listed without repeats, cut at `max` the way
      `slice(0, max)` cuts, is a keyword selection. */
  lemma SelectionOfPrefix(words: seq<string>, sorted: seq<string>, r: seq<string>, max: int)
    requires |r| <= |sorted| && r == sorted[..|r|]
    requires 0 <= max ==> |r| == if max < |sorted| then max else |sorted|
    requires NoRepeats(sorted)
    requires forall w :: w in sorted <==> Candidate(words, w)
    ensures IsKeywordSelection(words, max, r)
  {
    NoRepeatsPrefix(sorted, |r|);
    forall i | 0 <= i < |r|
      ensures Candidate(words, r[i])
    {
      assert r[i] == sorted[i];
    }
    if 0 <= max && |r| < max {
      assert r == sorted;
    }
  }

  /** In a list ordered by occurrences, every element of the first `n` occurs at
      least as often as any element left out of them. */
  lemma PrefixAhead(words: seq<string>, sorted: seq<string>, n: nat)
    requires n <= |sorted|
    requires forall i, j :: 0 <= i < j < |sorted| ==> Occurrences(words, sorted[i]) >= Occurrences(words, sorted[j])
    ensures forall w :: w in sorted && w !in sorted[..n] ==>
      forall i :: 0 <= i < n ==> Occurrences(words, sorted[i]) >= Occurrences(words, w)
  {
    forall w | w in sorted && w !in sorted[..n]
      ensures forall i :: 0 <= i < n ==> Occurrences(words, sorted[i]) >= Occurrences(words, w)
    {
      var k :| 0 <= k < |sorted| && sorted[k] == w;
      PastPrefix(sorted, n, k);
    }
  }

  /** In a list sorted by count, an element occurs at least as often as any later
      element. */
  lemma PrefixOrdered(words: seq<string>, counts: map<string, Tally>, sorted: seq<string>)
    requires forall w :: w in sorted ==> w in counts && counts[w] == Number(Occurrences(words, w))
    requires SortedBy(sorted, ByCount(counts))
    ensures forall i, j :: 0 <= i < j < |sorted| ==> Occurrences(words, sorted[i]) >= Occurrences(words, sorted[j])
  {
    forall i, j | 0 <= i < j < |sorted|
      ensures Occurrences(words, sorted[i]) >= Occurrences(words, sorted[j])
    {
      assert ByCount(counts)(sorted[i], sorted[j]);
    }
  }

  /** `extractKeywords`: blank text gives no keywords; an OpenAI reply is parsed
      (without applying `maxKeywords`); otherwise the frequency fallback runs. */
  method ExtractKeywords(text: string, maxKeywords: int, reply: Option<Result<string, string>>)
    returns (keywords: seq<string>)
    ensures AllSpace(text) ==> keywords == []
    ensures !AllSpace(text) && reply.Some? && reply.value.Success? ==>
      keywords == ParseKeywords(reply.value.value)
    ensures !AllSpace(text) && (reply.None? || reply.value.Failure?) ==>
      && IsKeywordSelection(Words(text), maxKeywords, keywords)
      && (ConstructorKey !in Words(text) ==> IsKeywordRanking(Words(text), maxKeywords, keywords))
      && forall i :: 0 <= i < |keywords| ==> KeywordShape(keywords[i])
  {
    TrimShape(text);
    if Trim(text) == [] {
      return [];
    }
    if reply.Some? && reply.value.Success? {
      keywords := ParseKeywords(reply.value.value);
    } else {
      keywords := FallbackExtractKeywords(text, maxKeywords);
    }
  }
}
