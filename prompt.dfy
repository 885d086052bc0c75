/** The integer side of the AI step: the user prompt built for one article
    (`_build_user_prompt`) and the counts `estimate_cost` reports before any
    price is applied. */
module Prompt {
  import opened Text

  /** Articles longer than this many characters are cut before they are sent. */
  const MaxArticleChars: nat := 8000

  const TruncationMarker: string := "\n\n[... 文章已截斷 ...]"
  const TitleLabel: string := "文章標題："
  const ContentIntro: string := "以下是文章內容：\n\n"

  /** Output tokens budgeted for each article sent. */
  const OutputTokensPerArticle: nat := 300

  /** Input tokens budgeted for the system prompt of each article sent. */
  const SystemPromptTokens: nat := 500

  // ---------------------------------------------------------------
  // The user prompt
  // ---------------------------------------------------------------

  /** An article as sent: kept whole up to the limit, otherwise its first
      `MaxArticleChars` characters and the truncation marker. */
  function Truncated(text: string): (r: string)
    ensures |text| <= MaxArticleChars ==> r == text
    ensures |text| > MaxArticleChars ==>
              && |r| == MaxArticleChars + |TruncationMarker|
              && r[..MaxArticleChars] == text[..MaxArticleChars]
              && EndsWith(r, TruncationMarker)
  {
    if |text| > MaxArticleChars then text[..MaxArticleChars] + TruncationMarker else text
  }

  /** The title line, present only for a non-empty title. */
  function Header(title: string): (r: string)
    ensures r == [] <==> title == []
    ensures title != [] ==> StartsWith(r, TitleLabel) && EndsWith(r, "\n\n")
  {
    if title != [] then TitleLabel + title + "\n\n" else ""
  }

  /** `_build_user_prompt(article_text, title)`. */
  function BuildUserPrompt(text: string, title: string): (r: string)
    ensures StartsWith(r, Header(title) + ContentIntro)
    ensures |r| <= |Header(title)| + |ContentIntro| + MaxArticleChars + |TruncationMarker|
  {
    Header(title) + ContentIntro + Truncated(text)
  }

  /** Where the article starts in a prompt. */
  function ArticleStart(title: string): nat {
    |Header(title)| + |ContentIntro|
  }

  /** Truncating what was already truncated changes nothing. */
  lemma TruncatedIdempotent(text: string)
    ensures Truncated(Truncated(text)) == Truncated(text)
  {
    if |text| > MaxArticleChars {
      var r := Truncated(text);
      assert r[..MaxArticleChars] == text[..MaxArticleChars];
    }
  }

  /** A short article is sent whole after the header; a long one as its
      first `MaxArticleChars` characters and the marker. */
  lemma PromptArticle(text: string, title: string)
    ensures ArticleStart(title) <= |BuildUserPrompt(text, title)|
    ensures |text| <= MaxArticleChars ==> BuildUserPrompt(text, title)[ArticleStart(title)..] == text
    ensures |text| > MaxArticleChars ==>
              BuildUserPrompt(text, title)[ArticleStart(title)..] == text[..MaxArticleChars] + TruncationMarker
  {
    var r := BuildUserPrompt(text, title);
    assert r == (Header(title) + ContentIntro) + Truncated(text);
    assert r[ArticleStart(title)..] == Truncated(text);
  }

  /** Without a title the prompt opens with the introduction; with one, it
      opens with the label and the title itself. */
  lemma PromptTitle(text: string, title: string)
    ensures title == [] ==> StartsWith(BuildUserPrompt(text, title), ContentIntro)
    ensures title != [] ==> StartsWith(BuildUserPrompt(text, title), TitleLabel + title + "\n\n" + ContentIntro)
  {
  }

  /** Two prompts with the same title are equal exactly when the articles
      send the same text. */
  lemma PromptDeterminedByArticle(a: string, b: string, title: string)
    ensures BuildUserPrompt(a, title) == BuildUserPrompt(b, title) <==> Truncated(a) == Truncated(b)
  {
    var h := Header(title) + ContentIntro;
    if BuildUserPrompt(a, title) == BuildUserPrompt(b, title) {
      assert Truncated(a) == (h + Truncated(a))[|h|..];
      assert Truncated(b) == (h + Truncated(b))[|h|..];
    }
  }

  // ---------------------------------------------------------------
  // Cost estimate counts
  // ---------------------------------------------------------------

  /** An entry from the article scan: whether it already carries AI data,
      and its body length in characters. */
  datatype ArticleInfo = ArticleInfo(hasAiData: bool, charCount: nat)

  /** The counts of the estimate; the price, computed in floating point
      from these, is not part of them. */
  datatype CostCounts = CostCounts(
    articleCount: nat,
    totalArticles: nat,
    totalChars: nat,
    systemTokens: nat,
    outputTokens: nat)

  /** The entries still to process, in order. */
  function Unprocessed(articles: seq<ArticleInfo>): (r: seq<ArticleInfo>)
    ensures |r| <= |articles|
    ensures forall a :: a in r ==> a in articles && !a.hasAiData
    ensures forall a :: a in articles && !a.hasAiData ==> a in r
  {
    if articles == [] then []
    else if articles[0].hasAiData then Unprocessed(articles[1..])
    else [articles[0]] + Unprocessed(articles[1..])
  }

  /** The characters counted for an entry: its length, capped at the limit. */
  function Capped(a: ArticleInfo): (n: nat)
    ensures n <= MaxArticleChars && n <= a.charCount
  {
    if a.charCount < MaxArticleChars then a.charCount else MaxArticleChars
  }

  /** The capped characters of the entries, summed. */
  function CappedChars(xs: seq<ArticleInfo>): (n: nat)
    ensures n <= MaxArticleChars * |xs|
  {
    if xs == [] then 0 else Capped(xs[0]) + CappedChars(xs[1..])
  }

  /** The uncapped characters of the entries, summed. */
  function AllChars(xs: seq<ArticleInfo>): nat {
    if xs == [] then 0 else xs[0].charCount + AllChars(xs[1..])
  }

  /** `estimate_cost`, its integer fields. */
  function EstimateCounts(articles: seq<ArticleInfo>): (r: CostCounts)
    ensures r.articleCount <= r.totalArticles == |articles|
    ensures r.totalChars <= MaxArticleChars * r.articleCount
    ensures r.outputTokens == OutputTokensPerArticle * r.articleCount
    ensures r.systemTokens == SystemPromptTokens * r.articleCount
  {
    var todo := Unprocessed(articles);
    CostCounts(|todo|, |articles|, CappedChars(todo), SystemPromptTokens * |todo|,
               OutputTokensPerArticle * |todo|)
  }

  /** The entries still to process, counted one index at a time. */
  function CountUnprocessed(articles: seq<ArticleInfo>): nat {
    if articles == [] then 0
    else (if articles[0].hasAiData then 0 else 1) + CountUnprocessed(articles[1..])
  }

  lemma {:induction false} UnprocessedCount(articles: seq<ArticleInfo>)
    ensures |Unprocessed(articles)| == CountUnprocessed(articles)
  {
    if articles != [] {
      UnprocessedCount(articles[1..]);
    }
  }

  lemma {:induction false} UnprocessedAppend(a: seq<ArticleInfo>, b: seq<ArticleInfo>)
    ensures Unprocessed(a + b) == Unprocessed(a) + Unprocessed(b)
  {
    if a == [] {
      assert a + b == b;
    } else {
      assert (a + b)[1..] == a[1..] + b;
      UnprocessedAppend(a[1..], b);
    }
  }

  lemma {:induction false} CappedCharsAppend(a: seq<ArticleInfo>, b: seq<ArticleInfo>)
    ensures CappedChars(a + b) == CappedChars(a) + CappedChars(b)
  {
    if a == [] {
      assert a + b == b;
    } else {
      assert (a + b)[1..] == a[1..] + b;
      CappedCharsAppend(a[1..], b);
    }
  }

  /** The counts of two scans together are the sums of their counts. */
  lemma EstimateAppend(a: seq<ArticleInfo>, b: seq<ArticleInfo>)
    ensures EstimateCounts(a + b).articleCount == EstimateCounts(a).articleCount + EstimateCounts(b).articleCount
    ensures EstimateCounts(a + b).totalChars == EstimateCounts(a).totalChars + EstimateCounts(b).totalChars
    ensures EstimateCounts(a + b).totalArticles == EstimateCounts(a).totalArticles + EstimateCounts(b).totalArticles
  {
    UnprocessedAppend(a, b);
    CappedCharsAppend(Unprocessed(a), Unprocessed(b));
  }

  /** The article count is the number of entries without AI data. */
  lemma ArticleCountIsCount(articles: seq<ArticleInfo>)
    ensures EstimateCounts(articles).articleCount == CountUnprocessed(articles)
  {
    UnprocessedCount(articles);
  }

  /** When every entry already has AI data there is nothing to count. */
  lemma {:induction false} NothingToProcess(articles: seq<ArticleInfo>)
    requires forall i :: 0 <= i < |articles| ==> articles[i].hasAiData
    ensures EstimateCounts(articles).articleCount == 0
    ensures EstimateCounts(articles).totalChars == 0 && EstimateCounts(articles).outputTokens == 0
  {
    if articles != [] {
      NothingToProcess(articles[1..]);
    }
  }

  /** When no entry is over the limit, the cap changes nothing. */
  lemma {:induction false} ShortArticlesCountWhole(xs: seq<ArticleInfo>)
    requires forall i :: 0 <= i < |xs| ==> xs[i].charCount <= MaxArticleChars
    ensures CappedChars(xs) == AllChars(xs)
  {
    if xs != [] {
      ShortArticlesCountWhole(xs[1..]);
    }
  }

  /** Capping never counts more than the characters there are. */
  lemma {:induction false} CappedAtMostAll(xs: seq<ArticleInfo>)
    ensures CappedChars(xs) <= AllChars(xs)
  {
    if xs != [] {
      CappedAtMostAll(xs[1..]);
    }
  }
}
