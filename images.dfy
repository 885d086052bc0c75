/** The image handling of `save_article`: the image URLs found in the
    Markdown, the extension and local name each one is saved under, and the
    rewriting of the content to point at the downloaded copies. */
module Images {
  import opened Wrappers
  import opened Text
  import opened Seqs
  import Url

  // ---------------------------------------------------------------
  // Markdown image links `![alt](url)`
  // ---------------------------------------------------------------

  /** The Markdown image pattern tried at `i`: "![", an alt text running to
      the first ']', which must be followed by '(', then a non-empty URL
      running to the first ')'. Gives the URL and the end of the match. */
  function MdMatchAt(s: string, i: nat): (r: Option<(string, nat)>)
    requires i <= |s|
    ensures r.Some? ==> i < r.value.1 <= |s|
    ensures r.Some? ==> r.value.0 != [] && ')' !in r.value.0
  {
    if i + 1 < |s| && s[i] == '!' && s[i + 1] == '[' then
      var a := Url.FirstOf(s, {']'}, i + 2);
      if a + 1 < |s| && s[a + 1] == '(' then
        var b := Url.FirstOf(s, {')'}, a + 2);
        if a + 2 < b < |s| then
          Some((s[a + 2..b], b + 1))
        else None
      else None
    else None
  }

  /** `re.findall` of the Markdown image pattern from `i` on: the URL of each
      match, left to right, the scan resuming after each match. */
  function MdImageUrls(s: string, i: nat): seq<string>
    requires i <= |s|
    decreases |s| - i
  {
    if i == |s| then []
    else match MdMatchAt(s, i)
      case Some(m) => [m.0] + MdImageUrls(s, m.1)
      case None => MdImageUrls(s, i + 1)
  }

  /** Every Markdown image URL is non-empty and holds no ')'. */
  lemma {:induction false} MdUrlsWellFormed(s: string, i: nat)
    requires i <= |s|
    ensures forall k :: 0 <= k < |MdImageUrls(s, i)| ==> MdImageUrls(s, i)[k] != [] && ')' !in MdImageUrls(s, i)[k]
    decreases |s| - i
  {
    if i < |s| {
      match MdMatchAt(s, i)
      case Some(m) => MdUrlsWellFormed(s, m.1);
      case None => MdUrlsWellFormed(s, i + 1);
    }
  }

  /** A lone image link `![alt](url)` yields exactly its URL. */
  lemma MdSingleLink(alt: string, url: string)
    requires ']' !in alt && ')' !in url && url != []
    ensures MdImageUrls("![" + alt + "](" + url + ")", 0) == [url]
  {
    var s := "![" + alt + "](" + url + ")";
    var a := 2 + |alt|;
    var b := a + 2 + |url|;
    assert s[..2] == "![" && s[2..a] == alt && s[a] == ']' && s[a + 1] == '(';
    assert s[a + 2..b] == url && s[b] == ')' && |s| == b + 1;
    Url.FirstOfAt(s, {']'}, 2, a);
    Url.FirstOfAt(s, {')'}, a + 2, b);
    assert MdMatchAt(s, 0) == Some((url, b + 1));
  }

  // ---------------------------------------------------------------
  // Bare image URLs
  // ---------------------------------------------------------------

  /** A character of the pattern's run `[^\s<>"']`. */
  predicate IsUrlChar(c: char) {
    !IsSpace(c) && c != '<' && c != '>' && c != '"' && c != '\''
  }

  /** The end of the run of URL characters that starts at `q`. */
  function RunEnd(s: string, q: nat): (e: nat)
    requires q <= |s|
    ensures q <= e <= |s|
    ensures forall j :: q <= j < e ==> IsUrlChar(s[j])
    ensures e < |s| ==> !IsUrlChar(s[e])
    decreases |s| - q
  {
    if q == |s| || !IsUrlChar(s[q]) then q else RunEnd(s, q + 1)
  }

  /** The length of the image extension that starts at `t` — `jpg`, `jpeg`,
      `png`, `gif` or `webp`, matched case-sensitively — or 0 for none. */
  function ExtLen(s: string, t: nat): (n: nat)
    requires t <= |s|
    ensures n == 0 || n == 3 || n == 4
    ensures t + n <= |s|
    ensures forall j :: t <= j < t + n ==> 'a' <= s[j] <= 'z'
  {
    var rest := s[t..];
    var n := if StartsWith(rest, "jpg") then 3
      else if StartsWith(rest, "jpeg") then 4
      else if StartsWith(rest, "png") then 3
      else if StartsWith(rest, "gif") then 3
      else if StartsWith(rest, "webp") then 4
      else 0;
    assert forall j :: t <= j < t + n ==> s[j] == rest[j - t];
    n
  }

  predicate ExtDot(s: string, k: nat)
    requires k < |s|
  {
    s[k] == '.' && ExtLen(s, k + 1) > 0
  }

  /** The greedy run backing off from `j`: the last position in `(q, j)`
      holding a '.' followed by an image extension. */
  function ExtDotBelow(s: string, q: nat, j: nat): (r: Option<nat>)
    requires j <= |s|
    ensures r.Some? ==> q < r.value < j && ExtDot(s, r.value)
    ensures r.Some? ==> forall k :: r.value < k < j ==> !ExtDot(s, k)
    ensures r.None? ==> forall k :: q < k < j ==> !ExtDot(s, k)
    decreases j
  {
    if j <= q + 1 then None
    else if ExtDot(s, j - 1) then Some(j - 1)
    else ExtDotBelow(s, q, j - 1)
  }

  /** Where the scheme `https://` or `http://` at `i` ends, if there is one. */
  function SchemeEnd(s: string, i: nat): (r: Option<nat>)
    requires i <= |s|
    ensures r.Some? ==> r.value <= |s| && (r.value == i + 7 || r.value == i + 8)
  {
    if StartsWith(s[i..], "https://") then Some(i + 8)
    else if StartsWith(s[i..], "http://") then Some(i + 7)
    else None
  }

  /** The end of the bare image-URL match at `i`, if any: the scheme, a run
      of URL characters backed off to the last '.' followed by an extension,
      and when a '?' follows the extension, the rest of the run. */
  function BareMatchAt(s: string, i: nat): (r: Option<nat>)
    requires i <= |s|
    ensures r.Some? ==> i < r.value <= |s|
  {
    match SchemeEnd(s, i)
    case None => None
    case Some(q) =>
      var e := RunEnd(s, q);
      match ExtDotBelow(s, q, e)
      case None => None
      case Some(k) =>
        var t := k + 1 + ExtLen(s, k + 1);
        if t < |s| && s[t] == '?' then Some(RunEnd(s, t + 1)) else Some(t)
  }

  /** `re.findall` of the bare image-URL pattern from `i` on. */
  function BareImageUrls(s: string, i: nat): seq<string>
    requires i <= |s|
    decreases |s| - i
  {
    if i == |s| then []
    else match BareMatchAt(s, i)
      case Some(e) => [s[i..e]] + BareImageUrls(s, e)
      case None => BareImageUrls(s, i + 1)
  }

  predicate IsBareUrl(u: string) {
    (StartsWith(u, "http://") || StartsWith(u, "https://"))
    && forall j :: 0 <= j < |u| ==> IsUrlChar(u[j])
  }

  /** The scheme is made of URL characters, and any slice from `i` reaching
      past it starts with it. */
  lemma SchemeShape(s: string, i: nat, end: nat)
    requires i <= |s| && SchemeEnd(s, i).Some?
    requires SchemeEnd(s, i).value <= end <= |s|
    ensures forall j :: i <= j < SchemeEnd(s, i).value ==> IsUrlChar(s[j])
    ensures StartsWith(s[i..end], "http://") || StartsWith(s[i..end], "https://")
  {
    var q := SchemeEnd(s, i).value;
    var p := if q == i + 8 then "https://" else "http://";
    assert s[i..][..q - i] == p;
    forall j | i <= j < q ensures IsUrlChar(s[j]) {
      assert s[j] == s[i..][..q - i][j - i] == p[j - i];
    }
    assert s[i..end][..q - i] == p;
  }

  /** The match ends within the run of URL characters. */
  lemma MatchInRun(s: string, i: nat)
    requires i <= |s| && BareMatchAt(s, i).Some?
    ensures forall j :: SchemeEnd(s, i).value <= j < BareMatchAt(s, i).value ==> IsUrlChar(s[j])
  {
    var q := SchemeEnd(s, i).value;
    var e := RunEnd(s, q);
    var k := ExtDotBelow(s, q, e).value;
    var t := k + 1 + ExtLen(s, k + 1);
    assert t <= e;
  }

  /** A bare match starts with the scheme and stays within the URL characters. */
  lemma BareMatchShape(s: string, i: nat)
    requires i <= |s| && BareMatchAt(s, i).Some?
    ensures IsBareUrl(s[i..BareMatchAt(s, i).value])
  {
    var end := BareMatchAt(s, i).value;
    SchemeShape(s, i, end);
    MatchInRun(s, i);
    var u := s[i..end];
    forall j | 0 <= j < |u| ensures IsUrlChar(u[j]) {
      assert u[j] == s[i + j];
    }
  }

  /** Every collected bare URL starts with `http://` or `https://` and holds
      no whitespace, '<', '>', '"' or '\''. */
  lemma {:induction false} BareUrlsWellFormed(s: string, i: nat)
    requires i <= |s|
    ensures forall k :: 0 <= k < |BareImageUrls(s, i)| ==> IsBareUrl(BareImageUrls(s, i)[k])
    decreases |s| - i
  {
    if i < |s| {
      match BareMatchAt(s, i)
      case Some(e) =>
        BareMatchShape(s, i);
        BareUrlsWellFormed(s, e);
      case None =>
        BareUrlsWellFormed(s, i + 1);
    }
  }

  /** A text that is nothing but an `https` link ending in `.png` yields that
      link whole. */
  lemma BareSinglePng(s: string)
    requires StartsWith(s, "https://") && EndsWith(s, ".png") && |s| > 12
    requires forall j :: 0 <= j < |s| ==> IsUrlChar(s[j])
    ensures BareImageUrls(s, 0) == [s]
  {
    var n := |s|;
    assert SchemeEnd(s, 0) == Some(8) by {
      assert s[0..] == s;
    }
    RunEndAll(s, 8);
    PngAtEnd(s);
    assert BareMatchAt(s, 0) == Some(n);
    assert s[0..n] == s;
  }

  /** In text ending in `.png`, the dot is the last one before an extension
      and the extension runs to the end. */
  lemma PngAtEnd(s: string)
    requires EndsWith(s, ".png") && |s| > 12
    ensures ExtDotBelow(s, 8, |s|) == Some(|s| - 4)
    ensures ExtLen(s, |s| - 3) == 3
  {
    var n := |s|;
    assert s[n - 4..] == ".png";
    assert s[n - 4] == '.' && s[n - 3] == 'p' && s[n - 2] == 'n' && s[n - 1] == 'g';
    assert s[n - 3..] == "png";
    assert ExtDot(s, n - 4);
    assert !ExtDot(s, n - 1) && !ExtDot(s, n - 2) && !ExtDot(s, n - 3);
  }

  lemma {:induction false} RunEndAll(s: string, q: nat)
    requires q <= |s|
    requires forall j :: q <= j < |s| ==> IsUrlChar(s[j])
    ensures RunEnd(s, q) == |s|
    decreases |s| - q
  {
    if q < |s| {
      RunEndAll(s, q + 1);
    }
  }

  // ---------------------------------------------------------------
  // The download list
  // ---------------------------------------------------------------

  /** The list `save_article` downloads: the Markdown image URLs in order,
      repeats kept, then each bare image URL that is not yet in the list. */
  function ImageList(content: string): seq<string> {
    var md := MdImageUrls(content, 0);
    md + Fresh(BareImageUrls(content, 0), md)
  }

  /** Builds the download list with the two loops of `save_article`. */
  method CollectImages(content: string) returns (all: seq<string>)
    ensures all == ImageList(content)
  {
    var md := MdImageUrls(content, 0);
    var bare := BareImageUrls(content, 0);
    all := [];
    var i := 0;
    while i < |md|
      invariant 0 <= i <= |md|
      invariant all == md[..i]
    {
      all := all + [md[i]];
      i := i + 1;
    }
    assert all == md;
    i := 0;
    while i < |bare|
      invariant 0 <= i <= |bare|
      invariant all + Fresh(bare[i..], all) == md + Fresh(bare, md)
    {
      FreshCons(bare[i], bare[i + 1..], all);
      assert bare[i..] == [bare[i]] + bare[i + 1..];
      if bare[i] !in all {
        all := all + [bare[i]];
      }
      i := i + 1;
    }
    assert bare[i..] == [];
  }

  /** The download list starts with every Markdown image URL; after them it
      lists each bare URL not among them exactly once; and it holds nothing
      else. */
  lemma ImageListShape(content: string)
    ensures var md := MdImageUrls(content, 0);
            var bare := BareImageUrls(content, 0);
            var all := ImageList(content);
            && all[..|md|] == md
            && (forall u :: u in all <==> u in md || u in bare)
            && (forall k :: |md| <= k < |all| ==> all[k] !in md)
            && NoDuplicates(all[|md|..])
  {
    var md := MdImageUrls(content, 0);
    var bare := BareImageUrls(content, 0);
    var all := ImageList(content);
    FreshProperties(bare, md);
    assert all[|md|..] == Fresh(bare, md);
    assert forall k :: |md| <= k < |all| ==> all[k] == Fresh(bare, md)[k - |md|];
  }

  // ---------------------------------------------------------------
  // Extensions and local names
  // ---------------------------------------------------------------

  /** The extensions `_guess_extension` recognises (a set in the source;
      which order it is scanned in does not matter, see `GuessExtensionSpec`). */
  const ImageExtensions: seq<string> := [".jpg", ".jpeg", ".png", ".gif", ".webp", ".svg", ".bmp"]

  const DefaultExtension: string := ".jpg"

  /** The first of `exts` that `path` ends with. */
  function FirstEnding(exts: seq<string>, path: string): (r: Option<string>)
    ensures r.Some? ==> r.value in exts && EndsWith(path, r.value)
    ensures r.None? ==> forall k :: 0 <= k < |exts| ==> !EndsWith(path, exts[k])
  {
    if exts == [] then None
    else if EndsWith(path, exts[0]) then Some(exts[0])
    else FirstEnding(exts[1..], path)
  }

  /** The URL path, lower-cased, that the extension is read from. */
  function LowerPath(url: string): string {
    AsciiLower(Url.Parse(url).path)
  }

  /** `_guess_extension`. */
  function GuessExtension(url: string): (r: string)
    ensures r in ImageExtensions
  {
    match FirstEnding(ImageExtensions, LowerPath(url))
    case Some(e) => e
    case None => DefaultExtension
  }

  /** A '.' followed by no other '.'. */
  predicate Dotted(e: string) {
    e != [] && e[0] == '.' && '.' !in e[1..]
  }

  /** Two dotted suffixes of one string are the same. */
  lemma DottedSuffixUnique(p: string, a: string, b: string)
    requires EndsWith(p, a) && EndsWith(p, b) && Dotted(a) && Dotted(b)
    ensures a == b
  {
  }

  lemma ExtensionsDotted()
    ensures forall k :: 0 <= k < |ImageExtensions| ==> Dotted(ImageExtensions[k])
  {
  }

  /** The extension is the one recognised extension the lower-cased path
      ends with, whichever order the set is scanned in, and ".jpg" when the
      path ends with none. */
  lemma GuessExtensionSpec(url: string)
    ensures forall e :: e in ImageExtensions && EndsWith(LowerPath(url), e) ==> GuessExtension(url) == e
    ensures (forall e :: e in ImageExtensions ==> !EndsWith(LowerPath(url), e)) ==> GuessExtension(url) == ".jpg"
  {
    ExtensionsDotted();
    var p := LowerPath(url);
    forall e | e in ImageExtensions && EndsWith(p, e) ensures GuessExtension(url) == e {
      var r := FirstEnding(ImageExtensions, p);
      assert r.Some?;
      DottedSuffixUnique(p, r.value, e);
    }
  }

  /** The directory, relative to the article folder, the images go into. */
  const ImagesDir: string := "images/"

  /** `f"img_{i:02d}{ext}"`. */
  function LocalName(i: nat, ext: string): (r: string)
    ensures StartsWith(r, "img_") && EndsWith(r, ext)
  {
    var r := "img_" + Pad2(i) + ext;
    assert r[..4] == "img_";
    assert r[|r| - |ext|..] == ext;
    r
  }

  /** The length of the run of decimal digits at the start of `s`. */
  function DigitRun(s: string): (n: nat)
    ensures n <= |s|
  {
    if s != [] && '0' <= s[0] <= '9' then 1 + DigitRun(s[1..]) else 0
  }

  lemma {:induction false} DigitRunOf(d: string, e: string)
    requires forall i :: 0 <= i < |d| ==> '0' <= d[i] <= '9'
    requires e != [] && !('0' <= e[0] <= '9')
    ensures DigitRun(d + e) == |d|
  {
    if d != [] {
      assert (d + e)[1..] == d[1..] + e;
      DigitRunOf(d[1..], e);
    } else {
      assert d + e == e;
    }
  }

  /** Local names determine the image number and the extension: two images
      never share a file. */
  lemma LocalNameInjective(i: nat, j: nat, a: string, b: string)
    requires Dotted(a) && Dotted(b)
    requires LocalName(i, a) == LocalName(j, b)
    ensures i == j && a == b
  {
    LocalNameSplit(i, a);
    LocalNameSplit(j, b);
    AppendCancel("img_", Pad2(i) + a, "img_", Pad2(j) + b);
    DigitRunOf(Pad2(i), a);
    DigitRunOf(Pad2(j), b);
    AppendCancel(Pad2(i), a, Pad2(j), b);
    Pad2Injective(i, j);
  }

  lemma LocalNameSplit(i: nat, ext: string)
    ensures LocalName(i, ext) == "img_" + (Pad2(i) + ext)
  {
  }

  /** Two joins with equally long first parts have equal parts. */
  lemma AppendCancel(p: string, a: string, q: string, b: string)
    requires p + a == q + b && |p| == |q|
    ensures p == q && a == b
  {
    assert p == (p + a)[..|p|] && q == (q + b)[..|q|];
    assert a == (p + a)[|p|..] && b == (q + b)[|q|..];
  }

  // ---------------------------------------------------------------
  // Downloading and rewriting
  // ---------------------------------------------------------------

  /** The extension of each image of the list. */
  function ExtensionsOf(imgs: seq<string>): (r: seq<string>)
    ensures |r| == |imgs|
  {
    seq(|imgs|, k requires 0 <= k < |imgs| => GuessExtension(imgs[k]))
  }

  /** The local names for a list of extensions, numbered from 1. */
  function Named(exts: seq<string>): (r: seq<string>)
    ensures |r| == |exts|
  {
    seq(|exts|, k requires 0 <= k < |exts| => LocalName(k + 1, exts[k]))
  }

  /** The file names of the download list. */
  function ImageNames(imgs: seq<string>): (r: seq<string>)
    ensures |r| == |imgs|
  {
    Named(ExtensionsOf(imgs))
  }

  lemma LocalNameDistinct(i: nat, j: nat, a: string, b: string)
    requires i != j && Dotted(a) && Dotted(b)
    ensures LocalName(i, a) != LocalName(j, b)
  {
    if LocalName(i, a) == LocalName(j, b) {
      LocalNameInjective(i, j, a, b);
    }
  }

  lemma ExtensionsOfDotted(imgs: seq<string>)
    ensures forall k :: 0 <= k < |imgs| ==> Dotted(ExtensionsOf(imgs)[k])
  {
    ExtensionsDotted();
    forall k | 0 <= k < |imgs| ensures Dotted(ExtensionsOf(imgs)[k]) {
      assert ExtensionsOf(imgs)[k] == GuessExtension(imgs[k]);
    }
  }

  /** Names numbered differently never clash. */
  lemma NamedDistinct(exts: seq<string>)
    requires forall k :: 0 <= k < |exts| ==> Dotted(exts[k])
    ensures NoDuplicates(Named(exts))
  {
    var names := Named(exts);
    forall i, j | 0 <= i < j < |names| ensures names[i] != names[j] {
      NamedAt(exts, i);
      NamedAt(exts, j);
      LocalNameDistinct(i + 1, j + 1, exts[i], exts[j]);
    }
  }

  /** No two images of the list are given the same file. */
  lemma ImageNamesDistinct(imgs: seq<string>)
    ensures NoDuplicates(ImageNames(imgs))
  {
    ExtensionsOfDotted(imgs);
    NamedDistinct(ExtensionsOf(imgs));
  }

  /** The content once the images from the `i`-th on have been tried: each
      image that downloaded has every occurrence of its URL replaced by its
      local path. `download(url, name, referer)` is the outcome of fetching
      `url` into the file `name`. */
  function RewrittenFrom(content: string, imgs: seq<string>, names: seq<string>, i: nat,
                         download: (string, string, string) -> bool, referer: string): string
    requires |names| == |imgs| && i <= |imgs|
    decreases |imgs| - i
  {
    if i == |imgs| then content
    else
      var c := if download(imgs[i], names[i], referer) then Replace(content, imgs[i], ImagesDir + names[i]) else content;
      RewrittenFrom(c, imgs, names, i + 1, download, referer)
  }

  /** The names of the files that downloaded, from the `i`-th image on. */
  function DownloadedFrom(imgs: seq<string>, names: seq<string>, i: nat,
                          download: (string, string, string) -> bool, referer: string): seq<string>
    requires |names| == |imgs| && i <= |imgs|
    decreases |imgs| - i
  {
    if i == |imgs| then []
    else (if download(imgs[i], names[i], referer) then [names[i]] else [])
         + DownloadedFrom(imgs, names, i + 1, download, referer)
  }

  /** The content `save_article` writes after its download loop. */
  function Rewritten(content: string, imgs: seq<string>, download: (string, string, string) -> bool, referer: string): string {
    RewrittenFrom(content, imgs, ImageNames(imgs), 0, download, referer)
  }

  /** The image files `save_article` keeps. */
  function Downloaded(imgs: seq<string>, download: (string, string, string) -> bool, referer: string): seq<string> {
    DownloadedFrom(imgs, ImageNames(imgs), 0, download, referer)
  }

  /** The download loop of `save_article`. */
  method RewriteImages(content: string, imgs: seq<string>,
                       download: (string, string, string) -> bool, referer: string)
    returns (out: string, files: seq<string>)
    ensures out == Rewritten(content, imgs, download, referer)
    ensures files == Downloaded(imgs, download, referer)
  {
    var names := NameImages(imgs);
    out, files := ApplyDownloads(content, imgs, names, download, referer);
  }

  /** The extension and local name of each image, numbered from 1. */
  method NameImages(imgs: seq<string>) returns (names: seq<string>)
    ensures names == ImageNames(imgs)
  {
    names := [];
    var i := 0;
    while i < |imgs|
      invariant 0 <= i <= |imgs|
      invariant names == ImageNames(imgs)[..i]
    {
      var ext := GuessExtension(imgs[i]);
      ImageNameAt(imgs, i);
      PrefixSnoc(ImageNames(imgs), i);
      names := names + [LocalName(i + 1, ext)];
      i := i + 1;
    }
    assert ImageNames(imgs)[..i] == ImageNames(imgs);
  }

  lemma ImageNameAt(imgs: seq<string>, i: nat)
    requires i < |imgs|
    ensures ImageNames(imgs)[i] == LocalName(i + 1, GuessExtension(imgs[i]))
  {
    var exts := ExtensionsOf(imgs);
    assert exts[i] == GuessExtension(imgs[i]);
    NamedAt(exts, i);
  }

  lemma NamedAt(exts: seq<string>, i: nat)
    requires i < |exts|
    ensures Named(exts)[i] == LocalName(i + 1, exts[i])
  {
  }

  /** Downloads each image into its file and, when that works, points the
      content at the local copy. */
  method ApplyDownloads(content: string, imgs: seq<string>, names: seq<string>,
                        download: (string, string, string) -> bool, referer: string)
    returns (out: string, files: seq<string>)
    requires |names| == |imgs|
    ensures out == RewrittenFrom(content, imgs, names, 0, download, referer)
    ensures files == DownloadedFrom(imgs, names, 0, download, referer)
  {
    out := content;
    files := [];
    var i := 0;
    while i < |imgs|
      invariant 0 <= i <= |imgs|
      invariant RewrittenFrom(out, imgs, names, i, download, referer) == RewrittenFrom(content, imgs, names, 0, download, referer)
      invariant files + DownloadedFrom(imgs, names, i, download, referer) == DownloadedFrom(imgs, names, 0, download, referer)
    {
      ghost var later := DownloadedFrom(imgs, names, i + 1, download, referer);
      if download(imgs[i], names[i], referer) {
        out := Replace(out, imgs[i], ImagesDir + names[i]);
        assert files + [names[i]] + later == files + ([names[i]] + later);
        files := files + [names[i]];
      }
      i := i + 1;
    }
  }

  /** When no image downloads, the content is left as it was and no file is kept. */
  lemma {:induction false} NothingDownloaded(content: string, imgs: seq<string>, names: seq<string>, i: nat,
                                             download: (string, string, string) -> bool, referer: string)
    requires |names| == |imgs| && i <= |imgs|
    requires forall k :: i <= k < |imgs| ==> !download(imgs[k], names[k], referer)
    ensures RewrittenFrom(content, imgs, names, i, download, referer) == content
    ensures DownloadedFrom(imgs, names, i, download, referer) == []
    decreases |imgs| - i
  {
    if i < |imgs| {
      NothingDownloaded(content, imgs, names, i + 1, download, referer);
    }
  }

  /** The kept files are distinct names of the list, in list order, one per
      image at most. */
  lemma {:induction false} DownloadedFromNames(imgs: seq<string>, names: seq<string>, i: nat,
                                               download: (string, string, string) -> bool, referer: string)
    requires |names| == |imgs| && i <= |imgs|
    requires NoDuplicates(names)
    ensures |DownloadedFrom(imgs, names, i, download, referer)| <= |imgs| - i
    ensures forall f :: f in DownloadedFrom(imgs, names, i, download, referer) ==> f in names[i..]
    ensures NoDuplicates(DownloadedFrom(imgs, names, i, download, referer))
    decreases |imgs| - i
  {
    if i < |imgs| {
      DownloadedFromNames(imgs, names, i + 1, download, referer);
      var rest := DownloadedFrom(imgs, names, i + 1, download, referer);
      assert names[i..] == [names[i]] + names[i + 1..];
      if download(imgs[i], names[i], referer) {
        var tail := names[i + 1..];
        assert names[i] !in tail by {
          forall m | 0 <= m < |tail| ensures tail[m] != names[i] {
            assert tail[m] == names[i + 1 + m];
          }
        }
        assert DownloadedFrom(imgs, names, i, download, referer) == [names[i]] + rest;
      }
    }
  }

  /** What `save_article` keeps: no two files alike, each the file of one of
      the images, and no more files than images. When no download works the
      content is left as it was. */
  lemma DownloadsShape(content: string, imgs: seq<string>, download: (string, string, string) -> bool, referer: string)
    ensures NoDuplicates(Downloaded(imgs, download, referer))
    ensures |Downloaded(imgs, download, referer)| <= |imgs|
    ensures forall f :: f in Downloaded(imgs, download, referer) ==>
              exists k :: 0 <= k < |imgs| && f == LocalName(k + 1, GuessExtension(imgs[k]))
    ensures (forall k :: 0 <= k < |imgs| ==> !download(imgs[k], ImageNames(imgs)[k], referer))
            ==> Rewritten(content, imgs, download, referer) == content && Downloaded(imgs, download, referer) == []
  {
    var names := ImageNames(imgs);
    ImageNamesDistinct(imgs);
    DownloadedFromNames(imgs, names, 0, download, referer);
    assert names[0..] == names;
    FilesAreNames(imgs, Downloaded(imgs, download, referer));
    if forall k :: 0 <= k < |imgs| ==> !download(imgs[k], names[k], referer) {
      NothingDownloaded(content, imgs, names, 0, download, referer);
    }
  }

  /** Files that are names of the list are each the local name of one image. */
  lemma FilesAreNames(imgs: seq<string>, files: seq<string>)
    requires forall f :: f in files ==> f in ImageNames(imgs)
    ensures forall f :: f in files ==> exists k :: 0 <= k < |imgs| && f == LocalName(k + 1, GuessExtension(imgs[k]))
  {
    var names := ImageNames(imgs);
    forall f | f in files
      ensures exists k :: 0 <= k < |imgs| && f == LocalName(k + 1, GuessExtension(imgs[k]))
    {
      var k :| 0 <= k < |names| && names[k] == f;
      ImageNameAt(imgs, k);
    }
  }
}
