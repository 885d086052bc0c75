/** The output directory: the dedup ledger and the saved articles, and the
    pure pieces of `save_article` — the folder name, the YAML-safe title and
    the metadata header. */
module Store {
  import opened Wrappers
  import opened Text
  import opened Ledger
  import opened Fetch
  import Images
  import Url

  // ---------------------------------------------------------------
  // YAML-safe titles
  // ---------------------------------------------------------------

  /** `_yaml_safe_title`: every backslash doubled, then every double quote
      preceded by a backslash. */
  function YamlSafeTitle(title: string): (r: string)
    ensures |r| >= |title|
  {
    ReplaceCharGrows(title, '\\', "\\\\");
    ReplaceCharGrows(ReplaceChar(title, '\\', "\\\\"), '"', "\\\"");
    ReplaceChar(ReplaceChar(title, '\\', "\\\\"), '"', "\\\"")
  }

  lemma {:induction false} ReplaceCharGrows(s: string, c: char, r: string)
    requires |r| >= 1
    ensures |ReplaceChar(s, c, r)| >= |s|
  {
    if s != [] {
      ReplaceCharGrows(s[1..], c, r);
    }
  }

  /** What one character of the title becomes. */
  function Escape(c: char): string {
    if c == '\\' then "\\\\" else if c == '"' then "\\\"" else [c]
  }

  /** Reading a double-quoted YAML scalar back: `\\` is a backslash, `\"` a
      double quote, anything else stands for itself. */
  function YamlUnescape(s: string): string
    decreases |s|
  {
    if s == [] then []
    else if |s| >= 2 && s[0] == '\\' && (s[1] == '\\' || s[1] == '"') then [s[1]] + YamlUnescape(s[2..])
    else [s[0]] + YamlUnescape(s[1..])
  }

  /** The title is escaped one character at a time, and the empty title
      stays empty. */
  lemma YamlSafeCons(c: char, t: string)
    ensures YamlSafeTitle([]) == []
    ensures YamlSafeTitle([c] + t) == Escape(c) + YamlSafeTitle(t)
  {
    var first := if c == '\\' then "\\\\" else [c];
    assert ([c] + t)[0] == c && ([c] + t)[1..] == t;
    assert ReplaceChar([c] + t, '\\', "\\\\") == first + ReplaceChar(t, '\\', "\\\\");
    ReplaceCharConcat(first, ReplaceChar(t, '\\', "\\\\"), '"', "\\\"");
    if c == '\\' {
      assert ReplaceChar(first, '"', "\\\"") == "\\\\" by {
        assert first[1..] == "\\";
        assert ReplaceChar(first[1..], '"', "\\\"") == "\\" by {
          assert first[1..][1..] == [];
        }
      }
    } else {
      assert first[1..] == [];
    }
  }

  /** Unescaping the YAML-safe title gives the title back. */
  lemma {:induction false} YamlRoundTrip(title: string)
    ensures YamlUnescape(YamlSafeTitle(title)) == title
  {
    if title != [] {
      var c := title[0];
      var rest := title[1..];
      assert title == [c] + rest;
      YamlSafeCons(c, rest);
      YamlRoundTrip(rest);
      var e := Escape(c) + YamlSafeTitle(rest);
      if c == '\\' || c == '"' {
        assert e[0] == '\\' && e[1] == c && e[2..] == YamlSafeTitle(rest);
      } else {
        assert e[0] == c && e[1..] == YamlSafeTitle(rest);
      }
    } else {
      assert YamlSafeTitle(title) == [];
    }
  }

  /** Every double quote of the YAML-safe title comes right after a backslash,
      so the title cannot end the quoted scalar early. */
  lemma {:induction false} YamlQuotesEscaped(title: string)
    ensures var r := YamlSafeTitle(title);
            forall k :: 0 <= k < |r| && r[k] == '"' ==> 0 < k && r[k - 1] == '\\'
  {
    if title == [] {
      assert YamlSafeTitle(title) == [];
    } else {
      var c := title[0];
      var rest := title[1..];
      assert title == [c] + rest;
      YamlSafeCons(c, rest);
      YamlQuotesEscaped(rest);
      var e := Escape(c);
      var tail := YamlSafeTitle(rest);
      var r := e + tail;
      forall k | 0 <= k < |r| && r[k] == '"' ensures 0 < k && r[k - 1] == '\\' {
        if k >= |e| {
          assert r[k] == tail[k - |e|];
          if k - |e| > 0 {
            assert r[k - 1] == tail[k - |e| - 1];
          } else {
            assert false;
          }
        }
      }
    }
  }

  // ---------------------------------------------------------------
  // Folder names
  // ---------------------------------------------------------------

  /** The characters `save_article` replaces in a title. */
  predicate Forbidden(c: char) {
    c == '\\' || c == '/' || c == ':' || c == '*' || c == '?' || c == '"' || c == '<' || c == '>' || c == '|'
  }

  const MaxTitleLength: nat := 60

  /** The title with each forbidden character replaced by '_', cut to 60 characters. */
  function SanitizeTitle(title: string): (r: string)
  {
    var replaced := seq(|title|, i requires 0 <= i < |title| => if Forbidden(title[i]) then '_' else title[i]);
    if |replaced| <= MaxTitleLength then replaced else replaced[..MaxTitleLength]
  }

  /** The sanitised title keeps the first 60 characters of the title, each
      forbidden one turned into '_' and every other one as it was. */
  lemma SanitizeTitleSpec(title: string)
    ensures var r := SanitizeTitle(title);
            && |r| == (if |title| <= MaxTitleLength then |title| else MaxTitleLength)
            && (forall i :: 0 <= i < |r| ==> !Forbidden(r[i]))
            && (forall i :: 0 <= i < |r| ==> r[i] == (if Forbidden(title[i]) then '_' else title[i]))
  {
  }

  /** Sanitising twice is sanitising once. */
  lemma SanitizeIdempotent(title: string)
    ensures SanitizeTitle(SanitizeTitle(title)) == SanitizeTitle(title)
  {
    SanitizeTitleSpec(title);
    var r := SanitizeTitle(title);
    SanitizeTitleSpec(r);
  }

  /** `f"{date}_{safe_title}"`. */
  function FolderName(date: string, title: string): string {
    date + "_" + SanitizeTitle(title)
  }

  /** The folder an article is saved in: the dated title, or the dated title
      plus `_` and the URL's short hash when that folder already exists. The
      hashed name is not checked in turn, so a folder of that name already
      present is written into again. */
  function ArticleFolder(existing: set<string>, date: string, title: string, url: string,
                         hash: string -> string): (r: string)
    ensures r == FolderName(date, title) <==> FolderName(date, title) !in existing
    ensures r != FolderName(date, title) ==> r == FolderName(date, title) + "_" + hash(url)
    ensures r in existing <==> FolderName(date, title) in existing
                               && FolderName(date, title) + "_" + hash(url) in existing
  {
    var base := FolderName(date, title);
    if base in existing then
      assert |base + "_" + hash(url)| > |base|;
      base + "_" + hash(url)
    else base
  }

  // ---------------------------------------------------------------
  // The saved file
  // ---------------------------------------------------------------

  /** The metadata header of `content.md`: the title line, then the other
      fields and the closing delimiter. */
  function Header(title: string, url: string, platform: Option<string>, source: string, now: string): string {
    TitleLine(title) + MetaLines(url, platform, source, now)
  }

  /** The opening delimiter and the quoted, escaped title. */
  function TitleLine(title: string): string {
    "---\ntitle: \"" + YamlSafeTitle(title) + "\"\n"
  }

  /** The source, platform, fetcher and date lines and the closing delimiter.
      `platform` is "unknown" when the article carries none. */
  function MetaLines(url: string, platform: Option<string>, source: string, now: string): string {
    "source: " + url + "\nplatform: " + (if platform.Some? then platform.value else "unknown")
    + "\nfetched_by: " + source + "\ndate: " + now + "\n---\n\n"
  }

  /** `metadata.json`. */
  datatype Metadata = Metadata(title: string, url: string, platform: Option<string>, source: string,
                               fetchedAt: string, imageCount: nat)

  /** What `save_article` leaves in an article folder. */
  datatype Saved = Saved(markdown: string, files: seq<string>, metadata: Metadata)

  /** The `Referer` sent with image downloads: the article's origin and '/'. */
  function RefererOf(url: string): string {
    Url.Origin(url) + "/"
  }

  /** What `save_article` writes for `article`. `now` and `isoNow` are the
      clock readings of the header and of `metadata.json`. */
  function SavedArticle(a: Article, now: string, isoNow: string, download: (string, string, string) -> bool): Saved {
    var imgs := Images.ImageList(a.content);
    var referer := RefererOf(a.url);
    Saved(Header(a.title, a.url, a.platform, a.source, now) + Images.Rewritten(a.content, imgs, download, referer),
          Images.Downloaded(imgs, download, referer),
          Metadata(a.title, a.url, a.platform, a.source, isoNow, |imgs|))
  }

  /** The saved Markdown is the header followed by the rewritten content, the
      header's title reads back as the article's title, and the metadata counts
      every listed image, downloaded or not. */
  lemma SavedArticleShape(a: Article, now: string, isoNow: string, download: (string, string, string) -> bool)
    ensures var s := SavedArticle(a, now, isoNow, download);
            var h := Header(a.title, a.url, a.platform, a.source, now);
            && StartsWith(s.markdown, h)
            && s.markdown[|h|..] == Images.Rewritten(a.content, Images.ImageList(a.content), download, RefererOf(a.url))
            && StartsWith(h, "---\ntitle: \"" + YamlSafeTitle(a.title) + "\"\n")
            && s.metadata.imageCount == |Images.ImageList(a.content)|
            && |s.files| <= s.metadata.imageCount
  {
    var s := SavedArticle(a, now, isoNow, download);
    var h := Header(a.title, a.url, a.platform, a.source, now);
    PrefixOfConcat(h, s.markdown[|h|..]);
    HeaderStartsWithTitle(a.title, a.url, a.platform, a.source, now);
    Images.DownloadsShape(a.content, Images.ImageList(a.content), download, RefererOf(a.url));
  }

  lemma PrefixOfConcat(a: string, b: string)
    ensures StartsWith(a + b, a) && (a + b)[|a|..] == b
  {
    assert (a + b)[..|a|] == a;
  }

  lemma HeaderStartsWithTitle(title: string, url: string, platform: Option<string>, source: string, now: string)
    ensures StartsWith(Header(title, url, platform, source, now), "---\ntitle: \"" + YamlSafeTitle(title) + "\"\n")
  {
    PrefixOfConcat(TitleLine(title), MetaLines(url, platform, source, now));
  }

  // ---------------------------------------------------------------
  // The output directory
  // ---------------------------------------------------------------

  /** The output directory: its ledger file, the folders present in it and
      what was saved in each. */
  class OutputDir {
    var ledger: LedgerFile
    var folders: set<string>
    var saved: map<string, Saved>

    constructor (ledger: LedgerFile, folders: set<string>)
      ensures this.ledger == ledger && this.folders == folders && saved == map[]
    {
      this.ledger := ledger;
      this.folders := folders;
      saved := map[];
    }

    /** The URLs the ledger records. */
    function Fetched(): set<string>
      reads this
    {
      Load(ledger)
    }

    /** `is_already_fetched`: `None` when reading the ledger raises. */
    method IsAlreadyFetched(url: string) returns (r: Option<bool>)
      ensures r.None? <==> ledger.NotUtf8?
      ensures r.Some? ==> (r.value <==> url in Fetched())
      ensures ledger.Urls? ==> r == Some(url in ledger.urls)
      ensures ledger.Object? ==> r == Some(url in ledger.keys)
    {
      var loaded := Read(ledger);
      if loaded.Raised? {
        return None;
      }
      r := Some(url in loaded.urls);
    }

    /** `mark_as_fetched`: the ledger is rewritten as the sorted list of the
        recorded URLs plus `url`. `raised` is the exception that stops it
        before anything is written: from the read, or from `sorted` when
        the loaded set holds something that is not a string. */
    method MarkAsFetched(url: string) returns (raised: bool)
      modifies this
      ensures raised <==> !Clean(old(ledger))
      ensures raised ==> ledger == old(ledger)
      ensures !raised ==> ledger.Urls? && SortedListOf(ledger.urls, old(Fetched()) + {url})
      ensures !raised ==> Fetched() == old(Fetched()) + {url} && Clean(ledger)
      ensures folders == old(folders) && saved == old(saved)
    {
      var loaded := Read(ledger);
      if loaded.Raised? || loaded.others {
        return true;
      }
      var fetched := loaded.urls + {url};
      var xs := SortUrls(fetched);
      ledger := Urls(xs);
      LoadSorted(xs, fetched);
      raised := false;
    }

    /** `save_article`; returns the folder it saved into. `hash(url)` is the
        short digest of the URL and `download` the outcome of each image
        download. */
    method SaveArticle(a: Article, date: string, now: string, isoNow: string,
                       hash: string -> string, download: (string, string, string) -> bool)
      returns (folder: string)
      modifies this
      ensures folder == ArticleFolder(old(folders), date, a.title, a.url, hash)
      ensures folders == old(folders) + {folder}
      ensures saved == old(saved)[folder := SavedArticle(a, now, isoNow, download)]
      ensures ledger == old(ledger)
    {
      var base := FolderName(date, a.title);
      folder := base;
      if folder in folders {
        folder := base + "_" + hash(a.url);
      }
      folders := folders + {folder};
      var imgs := Images.CollectImages(a.content);
      var referer := RefererOf(a.url);
      var content, files := Images.RewriteImages(a.content, imgs, download, referer);
      var markdown := Header(a.title, a.url, a.platform, a.source, now) + content;
      saved := saved[folder := Saved(markdown, files, Metadata(a.title, a.url, a.platform, a.source, isoNow, |imgs|))];
    }
  }

  /** Marking a URL and then checking it finds it; other URLs keep their
      answer; the ledger written is the one sorted list of the set. */
  lemma MarkedLedger(before: set<string>, url: string, after: LedgerFile)
    requires after.Urls? && SortedListOf(after.urls, before + {url})
    ensures url in Load(after)
    ensures forall v :: v != url ==> (v in Load(after) <==> v in before)
    ensures forall xs :: SortedListOf(xs, before + {url}) ==> xs == after.urls
  {
    LoadSorted(after.urls, before + {url});
    forall xs | SortedListOf(xs, before + {url}) ensures xs == after.urls {
      SortedListUnique(xs, after.urls, before + {url});
    }
  }
}
