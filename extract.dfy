/** What the scraper makes of fetched text: the reader service's title line
    and length check, and the PTT article trimming with its image links. The
    HTML parsing itself is not part of the model; the text it yields is an
    input here. */
module Extract {
  import opened Wrappers
  import opened Text
  import opened Seqs
  import opened Fetch

  /** The title used when none is found. */
  const Untitled: string := "未命名文章"

  /** Reader output shorter than this, after stripping, counts as a failure. */
  const MinReaderLength: nat := 100

  /** PTT text shorter than this, after trimming, counts as a failure. */
  const MinPttLength: nat := 30

  function Min(a: int, b: int): int {
    if a <= b then a else b
  }

  // ---------------------------------------------------------------
  // Reader service
  // ---------------------------------------------------------------

  /** The title a single stripped line announces: "Title: ..." or a "# ..."
      heading, with the marker removed and the rest stripped. */
  function LineTitle(line: string): (r: Option<string>)
    ensures r.Some? <==> StartsWith(line, "Title:") || StartsWith(line, "# ")
  {
    if StartsWith(line, "Title:") then Some(Strip(line[6..]))
    else if StartsWith(line, "# ") then Some(Strip(line[2..]))
    else None
  }

  /** The first line, among `lines`, that announces a title. */
  function TitleFromLines(lines: seq<string>): string {
    if lines == [] then Untitled
    else
      match LineTitle(Strip(lines[0]))
      case Some(t) => t
      case None => TitleFromLines(lines[1..])
  }

  /** `_extract_title_from_jina`: only the first five lines are looked at. */
  function ReaderTitle(content: string): string {
    var lines := Split(content, '\n');
    TitleFromLines(lines[..Min(5, |lines|)])
  }

  /** The earliest announcing line among the first five wins; without one the
      title is "未命名文章". */
  lemma {:induction false} TitleFromLinesEarliest(lines: seq<string>)
    ensures forall k :: 0 <= k < |lines| && LineTitle(Strip(lines[k])).Some?
              && (forall j :: 0 <= j < k ==> LineTitle(Strip(lines[j])).None?)
              ==> TitleFromLines(lines) == LineTitle(Strip(lines[k])).value
    ensures (forall k :: 0 <= k < |lines| ==> LineTitle(Strip(lines[k])).None?)
              ==> TitleFromLines(lines) == Untitled
  {
    if lines != [] {
      TitleFromLinesEarliest(lines[1..]);
      if LineTitle(Strip(lines[0])).None? {
        forall k | 0 <= k < |lines| && LineTitle(Strip(lines[k])).Some?
                   && (forall j :: 0 <= j < k ==> LineTitle(Strip(lines[j])).None?)
          ensures TitleFromLines(lines) == LineTitle(Strip(lines[k])).value
        {
          assert k >= 1 && lines[1..][k - 1] == lines[k];
          forall j | 0 <= j < k - 1 ensures LineTitle(Strip(lines[1..][j])).None? {
            assert lines[1..][j] == lines[j + 1];
          }
        }
        if forall k :: 0 <= k < |lines| ==> LineTitle(Strip(lines[k])).None? {
          forall k | 0 <= k < |lines[1..]| ensures LineTitle(Strip(lines[1..][k])).None? {
            assert lines[1..][k] == lines[k + 1];
          }
        }
      }
    }
  }

  /** A title announced on the sixth line or later is ignored. */
  lemma ReaderTitleFirstFive(content: string)
    requires forall k :: 0 <= k < Min(5, |Split(content, '\n')|) ==> LineTitle(Strip(Split(content, '\n')[k])).None?
    ensures ReaderTitle(content) == Untitled
  {
    var lines := Split(content, '\n');
    TitleFromLinesEarliest(lines[..Min(5, |lines|)]);
  }

  /** What `fetch_with_jina` makes of the service's response text. */
  function ReaderArticle(text: string, url: string): (r: Option<Article>)
    ensures r.None? <==> |Strip(text)| < MinReaderLength
    ensures r.Some? ==> r.value.content == Strip(text) && r.value.url == url
                        && r.value.source == "jina" && r.value.title == ReaderTitle(Strip(text))
  {
    var content := Strip(text);
    if |content| < MinReaderLength then None
    else Some(Article(ReaderTitle(content), content, "jina", url, None))
  }

  // ---------------------------------------------------------------
  // PTT articles
  // ---------------------------------------------------------------

  predicate Blank(line: string) {
    Strip(line) == []
  }

  /** The number of leading blank lines. */
  function LeadingBlank(lines: seq<string>): (n: nat)
    ensures n <= |lines|
    ensures forall i :: 0 <= i < n ==> Blank(lines[i])
    ensures n < |lines| ==> !Blank(lines[n])
  {
    if lines != [] && Blank(lines[0]) then 1 + LeadingBlank(lines[1..]) else 0
  }

  /** The index of the first signature separator line "--", or the length. */
  function SignatureAt(lines: seq<string>): (n: nat)
    ensures n <= |lines|
    ensures forall i :: 0 <= i < n ==> Strip(lines[i]) != "--"
    ensures n < |lines| ==> Strip(lines[n]) == "--"
  {
    if lines == [] || Strip(lines[0]) == "--" then 0 else 1 + SignatureAt(lines[1..])
  }

  /** The lines of a PTT article that are kept. */
  function KeptLines(lines: seq<string>): seq<string> {
    var rest := lines[LeadingBlank(lines)..];
    rest[..SignatureAt(rest)]
  }

  /** The kept lines are one contiguous run of the original lines: the run
      starts at the first non-blank line and stops just before the first
      "--" line, and no kept line is a separator. */
  lemma KeptLinesShape(lines: seq<string>, a: nat, b: nat)
    requires a == LeadingBlank(lines) && b == a + SignatureAt(lines[a..])
    ensures b <= |lines| && KeptLines(lines) == lines[a..b]
    ensures forall i :: 0 <= i < a ==> Blank(lines[i])
    ensures a < |lines| ==> !Blank(lines[a])
    ensures b < |lines| ==> Strip(lines[b]) == "--"
    ensures forall i :: 0 <= i < |KeptLines(lines)| ==> Strip(KeptLines(lines)[i]) != "--"
  {
    var rest := lines[a..];
    var n := SignatureAt(rest);
    KeptIsSlice(lines, a, n);
    KeptAvoidsSignature(rest[..n], rest, n);
    if b < |lines| {
      SliceAt(lines, a, n);
    }
  }

  lemma KeptIsSlice(lines: seq<string>, a: nat, n: nat)
    requires a == LeadingBlank(lines) && n == SignatureAt(lines[a..])
    ensures KeptLines(lines) == lines[a..][..n] == lines[a..a + n]
  {
    SliceOfSlice(lines, a, n);
  }

  lemma KeptAvoidsSignature(kept: seq<string>, rest: seq<string>, n: nat)
    requires n == SignatureAt(rest) && kept == rest[..n]
    ensures forall i :: 0 <= i < |kept| ==> Strip(kept[i]) != "--"
  {
    forall i | 0 <= i < |kept| ensures Strip(kept[i]) != "--" {
      assert kept[i] == rest[i];
    }
  }

  lemma SliceAt<T>(s: seq<T>, a: nat, n: nat)
    requires a + n < |s|
    ensures s[a + n] == s[a..][n]
  {
  }

  lemma SliceOfSlice<T>(s: seq<T>, a: nat, n: nat)
    requires a + n <= |s|
    ensures s[a..][..n] == s[a..a + n]
  {
  }

  /** The trimming in `_parse_ptt_article`: leading blank lines are popped,
      the text is cut at the first "--" line, and the rest is joined and
      stripped. */
  method PttTrim(text: string) returns (content: string)
    ensures content == Strip(Join(KeptLines(Splitlines(text)), "\n"))
  {
    var lines := Splitlines(text);
    lines := DropLeadingBlank(lines);
    lines := CutAtSignature(lines);
    content := Strip(Join(lines, "\n"));
  }

  /** The popping loop: blank lines are dropped from the front. */
  method DropLeadingBlank(original: seq<string>) returns (lines: seq<string>)
    ensures lines == original[LeadingBlank(original)..]
  {
    lines := original;
    while lines != [] && Strip(lines[0]) == []
      invariant |lines| <= |original|
      invariant lines == original[|original| - |lines|..]
      invariant forall i :: 0 <= i < |original| - |lines| ==> Blank(original[i])
    {
      lines := lines[1..];
    }
    LeadingBlankUnique(original, |original| - |lines|);
  }

  /** The separator loop: the lines are cut before the first "--" line. */
  method CutAtSignature(rest: seq<string>) returns (lines: seq<string>)
    ensures lines == rest[..SignatureAt(rest)]
  {
    lines := rest;
    var i := 0;
    while i < |lines|
      invariant 0 <= i <= |lines|
      invariant lines == rest
      invariant forall j :: 0 <= j < i ==> Strip(rest[j]) != "--"
    {
      if Strip(lines[i]) == "--" {
        lines := lines[..i];
        break;
      }
      i := i + 1;
    }
    SignatureAtUnique(rest, |lines|);
  }

  lemma {:induction false} LeadingBlankUnique(lines: seq<string>, n: nat)
    requires n <= |lines|
    requires forall i :: 0 <= i < n ==> Blank(lines[i])
    requires n < |lines| ==> !Blank(lines[n])
    ensures LeadingBlank(lines) == n
  {
    if n > 0 {
      LeadingBlankUnique(lines[1..], n - 1);
    }
  }

  lemma {:induction false} SignatureAtUnique(lines: seq<string>, n: nat)
    requires n <= |lines|
    requires forall i :: 0 <= i < n ==> Strip(lines[i]) != "--"
    requires n < |lines| ==> Strip(lines[n]) == "--"
    ensures SignatureAt(lines) == n
  {
    if n > 0 {
      SignatureAtUnique(lines[1..], n - 1);
    }
  }

  /** Case-insensitive (ASCII) prefix test. */
  predicate StartsWithNoCase(s: string, p: string) {
    |p| <= |s| && AsciiLower(s[..|p|]) == p
  }

  predicate HasImageExtNoCase(s: string) {
    StartsWithNoCase(s, "jpg") || StartsWithNoCase(s, "jpeg") || StartsWithNoCase(s, "png")
    || StartsWithNoCase(s, "gif") || StartsWithNoCase(s, "webp")
  }

  /** Where the host part starts after "http://" or "https://", any case; 0 without a scheme. */
  function PttSchemeEnd(s: string): nat {
    if StartsWithNoCase(s, "https://") then 8
    else if StartsWithNoCase(s, "http://") then 7
    else 0
  }

  /** A line that the PTT parser takes for an image link: "http(s)://", at
      least one non-space character, then a '.' directly followed by an image
      extension, matched from the start of the line and ignoring case. */
  predicate PttImageLine(s: string) {
    var q := PttSchemeEnd(s);
    q > 0 && exists j :: q < j < |s| && s[j] == '.' && HasImageExtNoCase(s[j + 1..])
                         && forall k :: q <= k < j ==> !IsSpace(s[k])
  }

  /** The stripped lines that are image links, in order. */
  function ImageLinkLines(lines: seq<string>): (r: seq<string>)
    ensures forall x :: x in r ==> PttImageLine(x)
  {
    if lines == [] then []
    else (if PttImageLine(Strip(lines[0])) then [Strip(lines[0])] else []) + ImageLinkLines(lines[1..])
  }

  /** A PTT article and its image list. */
  datatype PttArticle = PttArticle(article: Article, images: seq<string>)

  /** The text half of `_parse_ptt_article`. `text` is the article body's
      text, `metaTitle` the "標題" header (empty when missing) and
      `tagImages` the image-tag sources already resolved against the URL. */
  method ParsePtt(text: string, metaTitle: string, tagImages: seq<string>, url: string, source: string)
    returns (r: Option<PttArticle>)
    ensures var content := Strip(Join(KeptLines(Splitlines(text)), "\n"));
            if |content| < MinPttLength then r == None
            else r == Some(PttArticle(
                   Article(if metaTitle == "" then Untitled else metaTitle, content, source, url, None),
                   tagImages + Fresh(ImageLinkLines(Splitlines(content)), tagImages)))
  {
    var content := PttTrim(text);
    var images := AddImageLines(tagImages, content);
    if content == [] || |content| < MinPttLength {
      return None;
    }
    var title := if metaTitle == "" then Untitled else metaTitle;
    r := Some(PttArticle(Article(title, content, source, url, None), images));
  }

  /** The image-link scan of `_parse_ptt_article`: each stripped line of the
      text that is an image link is appended unless already listed. */
  method AddImageLines(tagImages: seq<string>, content: string) returns (images: seq<string>)
    ensures images == tagImages + Fresh(ImageLinkLines(Splitlines(content)), tagImages)
  {
    images := tagImages;
    var lines := Splitlines(content);
    var i := 0;
    while i < |lines|
      invariant 0 <= i <= |lines|
      invariant images + Fresh(ImageLinkLines(lines[i..]), images)
                == tagImages + Fresh(ImageLinkLines(lines), tagImages)
    {
      var line := Strip(lines[i]);
      var isImage := PttImageLine(line);
      ImageLinkLinesStep(lines, i);
      ghost var later := ImageLinkLines(lines[i + 1..]);
      if isImage {
        FreshCons(line, later, images);
        if line !in images {
          images := images + [line];
        }
      } else {
        assert ImageLinkLines(lines[i..]) == later;
      }
      i := i + 1;
    }
    assert lines[i..] == [];
  }

  lemma ImageLinkLinesStep(lines: seq<string>, i: nat)
    requires i < |lines|
    ensures ImageLinkLines(lines[i..])
            == (if PttImageLine(Strip(lines[i])) then [Strip(lines[i])] else []) + ImageLinkLines(lines[i + 1..])
  {
    assert lines[i..][0] == lines[i] && lines[i..][1..] == lines[i + 1..];
  }

  /** The image list of a PTT article keeps the tag images first, then adds
      each image line once, never repeating one already present. */
  lemma PttImagesShape(tagImages: seq<string>, content: string)
    ensures var imgs := tagImages + Fresh(ImageLinkLines(Splitlines(content)), tagImages);
            imgs[..|tagImages|] == tagImages
            && (forall x :: x in imgs <==> x in tagImages || x in ImageLinkLines(Splitlines(content)))
            && NoDuplicates(imgs[|tagImages|..])
  {
    var added := Fresh(ImageLinkLines(Splitlines(content)), tagImages);
    FreshProperties(ImageLinkLines(Splitlines(content)), tagImages);
    assert (tagImages + added)[|tagImages|..] == added;
  }
}
