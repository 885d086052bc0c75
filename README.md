# climb: article fetching, front matter and background tasks, modelled in Dafny

climb saves veterinary articles from the web as Markdown folders, and then
classifies them with an AI model. This project models its decision logic and
proves properties of it:

- **Fetching** (`scraper.py`). This covers:
  - the platform rule table and `identify_platform`;
  - the robots.txt check, which allows the fetch when robots.txt cannot be read;
  - `retry_fetch` with exponential backoff, where sleeps are recorded as steps;
  - the strategy order of `fetch_article`, with fallback;
  - the title taken from the reader service;
  - the trimming of PTT article text;
  - the dedup ledger, a set stored as a sorted JSON list;
  - the pieces of `save_article`: the folder name, the YAML-safe title, the image list, the local image names and the download/rewrite loop;
  - `_guess_extension`;
  - `batch_fetch_urls` and the way `batch_fetch` reads its URL file.
- **Front matter** (`ai_processor.py`). This covers:
  - `parse_frontmatter`: the regular expression `^---\s*\n(.*?)\n---\s*\n` (DOTALL) with its backtracking order, and the line parser;
  - `update_frontmatter`: the merge and the printer;
  - the truncation in `_build_user_prompt`;
  - the integer counts of `estimate_cost`.
- **Background tasks** (`gui/workers/task_runner.py`). This covers:
  - the `TaskRunner` maps under `submit`, `cancel`, `is_running`, the done-callback cleanup and `shutdown`, run one step at a time;
  - the exception wrapper `_make_safe_worker`.

Modules:
- `Wrappers` (Option), `Text` (Python `str` semantics), `Url` (the part of `urlparse` used) and `Seqs`;
- `Platform`, `Fetch`, `Extract`, `Ledger`, `Images`, `Store` (with the `OutputDir` class) and `Batch`;
- `Frontmatter` and `FrontmatterRoundTrip`;
- `Prompt`;
- `Tasks` (the `TaskRunner` and `ResultQueue` classes).

Things the program cannot see are parameters of the model:
- the HTTP strategies: `run(strategy)(attempt)`, the article or nothing;
- robots.txt: whether it is reachable, and what its parser answers;
- the image downloads: a success flag for each image;
- the clock: date and time strings;
- the MD5 suffix: a function from URL to text.

The output directory is a value: the ledger file, the set of folder names and what was saved in each folder.

The configuration takes its default values:
- 3 retries;
- a base delay of 2 seconds;
- a politeness delay of 2 seconds.

Where the code and its tests or documentation disagree, the model follows the code:
- **PTT strategy.** The PTT rule recommends the strategy `jina`, while `test_scraper.py:20-24` expects `bs4`.
- **Last fallback strategy.** Playwright is appended only when the list lacks it. A platform whose recommended strategy is `playwright` has the list `[playwright, bs4]`, so that list ends with `bs4` and not with the browser (`Fetch.StrategyOrderShape`).
- **Duplicate image URLs.** The image list keeps duplicate Markdown-image URLs. Only bare URLs already in the list are skipped.
- **Front-matter parser.** `parse_frontmatter` is a hand-written line parser, not YAML. Multi-line `|-` values and `- item` lists, which some tests written against PyYAML use, are not read as YAML would read them.
- **Escaped quotes.** `parse_frontmatter` does not undo the `\"` escaping that `update_frontmatter` writes. A string with a `"` therefore gains a backslash before each quote every time it is written and read again (`FrontmatterRoundTrip.QuotedReadsEscaped`).
- **Leading blank lines.** The closing delimiter's `\s*\n` takes blank lines from the start of a body that follows it. The round trip therefore gives the body back less those lines (`FrontmatterRoundTrip.Swallowed`). A body that came out of a parsed block has no such lines (`FrontmatterRoundTrip.ParsedBodyKept`).

## Model

| member | source | states |
|---|---|---|
| `Platform.FirstMatch` | scraper.py:261-269 | the index found is a rule with a keyword in the host; no earlier rule matches; none is found exactly when no rule matches |
| `Platform.ClassifyBy` | scraper.py:256-277 | the first matching rule of the table gives the name, login flag and strategy; with no match the result is "其他", no login, `jina`; the domain is reported either way |
| `Platform.IdentifyPlatform` | scraper.py:256-259 | the domain reported is the network location, lower-cased |
| `Platform.TableConsistent` | scraper.py:232-253 | in every rule, needs-login holds exactly when the strategy is `skip` or `playwright` |
| `Platform.ClassifyConsistent` | scraper.py:256-277 | a table whose every rule keeps needs-login and the strategy in step classifies every host in step |
| `Platform.LoginMeansSkipOrBrowser` | scraper.py:232-277 | for every URL, needs-login holds exactly when the strategy is `skip` or `playwright` |
| `Platform.PttIsReader` | scraper.py:234 | a host containing `ptt.cc` is PTT, with no login and the `jina` strategy |
| `Platform.PttWebUrl` | scraper.py:256-269 | any URL on `https://www.ptt.cc` is identified as PTT with domain `www.ptt.cc` |
| `Platform.UnknownIsOther` | scraper.py:271-277 | a host that matches no keyword is "其他", with no login and `jina` |
| `Url.Parse` | scraper.py:258 | the network location holds no `/`, `?` or `#`, and the path holds no `?` or `#` |
| `Url.ParseAuthority` | scraper.py:258-259 | for `scheme://host` followed by a path, query or fragment, the network location is `host` |
| `Fetch.FirstSuccess` | scraper.py:168-171 | the attempt found is the first successful one in range, and none is found only when every attempt fails |
| `Fetch.Retry` | scraper.py:166-176 | the result is the first successful call's; the steps are the backoff schedule for the number of calls made |
| `Fetch.Backoff` | scraper.py:168-175 | `n` calls take `2n-1` steps |
| `Fetch.BackoffSchedule` | scraper.py:168-175 | `n` calls come with exactly `n-1` sleeps of `base*2^k`, call `k` is step `2k`, and the last step is a call, never a sleep |
| `Fetch.SleepsAppend` | scraper.py:168-175 | sleeps and calls of joined steps add up |
| `Fetch.RetryScenarios` | scraper.py:166-176 | with three retries: the first success stops at once; the third attempt's success is returned after three calls; three failures give None after sleeping 2 and 4 seconds |
| `Fetch.RobotsFailOpen` | scraper.py:149-159 | fail-open for the whole fetch: with robots.txt unreadable the outcome does not depend on the parser, and a platform that is not skipped goes straight to its strategies; with it readable, a URL the parser refuses yields nothing |
| `Fetch.StrategyOrderShape` | scraper.py:556-566 | the strategy list has no duplicates, includes `playwright` and `bs4`, never `skip`, starts with the recommended strategy (`jina` by default), and ends with `playwright` except for browser platforms, where it ends with `bs4` |
| `Fetch.FirstStrategyWins` | scraper.py:568-577 | the fallback finds an article exactly when some strategy's retries do, and then it is the earliest such strategy's article |
| `Fetch.FetchOutcome` | scraper.py:535-577 | a `skip` platform and a robots refusal give None; an article found carries the platform name |
| `Fetch.FetchArticle` | scraper.py:535-577 | a `skip` platform returns before the robots check and before any strategy call; a robots refusal returns after the check alone; otherwise the strategies are tried in order, with their calls and sleeps traced |
| `Fetch.TryStrategies` | scraper.py:568-577 | the loop returns the first article found, with the calls and sleeps of every strategy tried |
| `Fetch.TraceBounded` | scraper.py:568-569 | every call traced is of a strategy in the list and numbered below the retry bound |
| `Fetch.Tag` | scraper.py:568-569 | each retry step becomes one event: a call of that strategy, or a wait |
| `Extract.LineTitle` | scraper.py:325-331 | a stripped line announces a title exactly when it starts with `Title:` or `# ` |
| `Extract.TitleFromLinesEarliest` | scraper.py:324-332 | the earliest announcing line wins, with its prefix cut and the rest stripped; without one the title is "未命名文章" |
| `Extract.ReaderTitleFirstFive` | scraper.py:323-324 | when none of the first five lines announces a title, the title is "未命名文章", whatever later lines say |
| `Extract.ReaderArticle` | scraper.py:299-314 | reader text under 100 characters after stripping is a failure; otherwise the article holds the stripped text, the title read from it, the URL and source `jina` |
| `Extract.LeadingBlank` | scraper.py:366-367 | the number of leading lines that are blank after stripping, stopping at the first non-blank line |
| `Extract.SignatureAt` | scraper.py:369-372 | the first line that is `--` after stripping, or the end |
| `Extract.KeptLinesShape` | scraper.py:364-372 | the kept lines are one run of the original lines: after the leading blank lines, up to, not including, the first `--` line, and none of them is `--` |
| `Extract.PttTrim` | scraper.py:364-373 | the pop-and-cut loops leave the kept lines, joined by newlines and stripped |
| `Extract.DropLeadingBlank` | scraper.py:366-367 | the popping loop leaves the lines from the first non-blank one on |
| `Extract.CutAtSignature` | scraper.py:369-372 | the separator loop leaves the lines before the first `--` line, or all of them when there is none |
| `Extract.ParsePtt` | scraper.py:353-399 | trimmed text under 30 characters is refused; otherwise the title defaults to "未命名文章" and the images are the tag images, then the new image-link lines |
| `Extract.AddImageLines` | scraper.py:383-387 | the image-link lines are appended in order, each only when not yet in the list |
| `Extract.PttImagesShape` | scraper.py:376-387 | the tag images come first; the list holds exactly the tag images and image-link lines; what is added holds no duplicates |
| `Ledger.Read` | scraper.py:183-192 | undecodable bytes raise; a missing file, non-JSON text, a JSON null/number/boolean and a list with an unhashable item are the empty set; a JSON string is the set of its characters, an object the set of its keys, a list the set of its items, with a flag for items that are not strings |
| `Ledger.Load` | scraper.py:183-192 | the URLs of a read that does not raise; for a list of strings, exactly the listed ones |
| `Ledger.SortUrls` | scraper.py:195-202 | the list written is the set's elements, each once, in increasing order |
| `Ledger.SortedListUnique` | scraper.py:199-200 | the sorted list of a set is unique |
| `Ledger.LoadSorted` | scraper.py:183-202 | reading back what was saved gives the same set, and the saved ledger can be read and rewritten without an exception |
| `Store.OutputDir.IsAlreadyFetched` | scraper.py:205-208 | raises exactly when the ledger is not UTF-8; otherwise true exactly when the loaded set holds the URL, so a list or an object answers by its items or keys |
| `Store.OutputDir.MarkAsFetched` | scraper.py:211-215 | raises, writing nothing, exactly when the read raises or the loaded set holds a non-string that `sorted` cannot order against the URL; otherwise the ledger becomes the sorted list of the old set plus the URL, and nothing else changes |
| `Store.MarkedLedger` | scraper.py:205-215 | after marking, the URL is found, every other URL keeps its answer, and the saved list is the one sorted list of the set |
| `Store.YamlRoundTrip` | scraper.py:222-225 | unescaping `\\` and `\"` in the YAML-safe title gives the title back |
| `Store.YamlQuotesEscaped` | scraper.py:222-225 | every `"` in the YAML-safe title comes right after a backslash |
| `Store.YamlSafeCons` | scraper.py:224 | the title is escaped one character at a time, so the empty title stays empty |
| `Store.SanitizeTitleSpec` | scraper.py:611 | the first 60 characters of the title are kept, each forbidden character turned into `_` |
| `Store.SanitizeIdempotent` | scraper.py:611 | sanitising twice is sanitising once |
| `Store.ArticleFolder` | scraper.py:612-620 | the dated title is used exactly when no folder of that name exists, and otherwise the dated title plus `_` and the URL's hash; that second name is never checked, so the result is an existing folder exactly when both names exist |
| `Store.OutputDir.SaveArticle` | scraper.py:604-687 | the folder chosen is added; what is saved there is the header plus the rewritten content, the kept image files and the metadata; the ledger is untouched |
| `Store.SavedArticleShape` | scraper.py:658-684 | the Markdown is the header followed by the rewritten content; the header opens with the YAML-safe title; the image count is the length of the image list; no more files than images are kept |
| `Images.MdUrlsWellFormed` | scraper.py:628-629 | every Markdown image URL is non-empty and holds no `)` |
| `Images.MdSingleLink` | scraper.py:628-629 | a lone `![alt](url)` yields exactly `url` |
| `Images.BareUrlsWellFormed` | scraper.py:632-633 | every bare image URL starts with `http://` or `https://` and holds only URL characters |
| `Images.BareSinglePng` | scraper.py:632-633 | a text that is nothing but an `https` link ending in `.png` yields that link |
| `Images.CollectImages` | scraper.py:635-640 | the two loops build the download list |
| `Images.ImageListShape` | scraper.py:635-640 | the Markdown URLs come first, in order; the list holds exactly the Markdown and bare URLs; the bare URLs added are new and distinct |
| `Images.GuessExtension` | scraper.py:690-697 | the result is one of the seven recognised extensions |
| `Images.GuessExtensionSpec` | scraper.py:690-697 | the extension the lower-cased path ends with is returned; otherwise `.jpg` |
| `Images.NameImages` | scraper.py:648-650 | the file names of the images are `img_{i:02d}` followed by the guessed extension, counting from 1 |
| `Images.LocalNameInjective` | scraper.py:650 | `img_{i:02d}{ext}` determines both the number and the extension |
| `Images.ImageNamesDistinct` | scraper.py:648-651 | no two images of the list get the same file name |
| `Images.RewriteImages` | scraper.py:648-656 | the download loop gives the rewritten content and the kept files |
| `Images.ApplyDownloads` | scraper.py:648-656 | the loop gives the content with each downloaded image's URL replaced by `images/` and its name, and the files kept, in order |
| `Images.DownloadsShape` | scraper.py:648-656 | the kept files are distinct, at most one per image, each the local name of some image; when nothing downloads, the content is unchanged and no file is kept |
| `Batch.Step` | scraper.py:716-734 | one item is a success exactly when the URL was not recorded and a fetch found an article; only a success records the URL, and other outcomes change nothing |
| `Batch.BatchFetchUrls` | scraper.py:704-753 | the lists are the grouped entries in input order; the pauses and the final directory are those of the specification; the ledger is rewritten sorted exactly when something succeeded |
| `Batch.Group` | scraper.py:711-734 | the three lists together hold as many entries as the input, each of its own kind |
| `Batch.EveryUrlOnce` | scraper.py:711-734 | as a multiset, the URLs of the three lists are exactly the input URLs |
| `Batch.DedupBeforeLogin` | scraper.py:716-726 | a recorded URL is skipped as "已下載過" before the platform is looked at; an unrecorded `skip` platform is skipped with its name and " 需要登入" |
| `Batch.FinalFetched` | scraper.py:728-732 | the ledger after the batch is the old one plus the saved URLs, and no URL is saved twice |
| `Batch.RepeatedUrlSkipped` | scraper.py:716-720 | a URL occurring again after it was saved, or one that was already recorded, is skipped as already fetched |
| `Batch.RepeatSkippedAll` | scraper.py:716-720 | a later repetition of a URL that was saved or already recorded is reported as already fetched |
| `Batch.PausesShape` | scraper.py:736-738 | the pauses come in increasing order, never after the last item, and fall exactly after the items that went to the network |
| `Batch.KeptUrlsSpec` | scraper.py:763-766 | the URLs kept are stripped and neither blank nor comments, and every such line is kept |
| `Batch.UrlFileLines` | scraper.py:762-766 | the line loop keeps the stripped lines that are neither blank nor comments |
| `Batch.UniversalNewlines` | scraper.py:762-763 | text read in text mode holds no carriage return: `\r\n` and a lone `\r` each become one newline |
| `Batch.BatchFetch` | scraper.py:756-768 | the URL file's URLs are fetched as one batch |
| `Frontmatter.FrontmatterMatch` | ai_processor.py:80 | the newline ending the opening delimiter, the one starting the closing delimiter and the one ending it lie in that order within the text |
| `Frontmatter.MatchShape` | ai_processor.py:80 | a match opens with `---` and whitespace up to a newline, has a closing `\n---` later followed only by whitespace, and ends at a newline within the text |
| `Frontmatter.MatchEnds` | ai_processor.py:80 | the delimiter characters at the three positions of a match |
| `Frontmatter.LastNewline` | ai_processor.py:80 | the greedy `\s*\n` ends at the last newline of the whitespace run, and there is none exactly when the run holds no newline |
| `Frontmatter.CloseAt` | ai_processor.py:80 | a closing delimiter at a position is `\n---`, whitespace and a newline |
| `Frontmatter.FirstClose` | ai_processor.py:80 | the lazy group ends at the first position where a closing delimiter matches, and there is none only when no position does |
| `Frontmatter.ParseNoMatch` | ai_processor.py:91-93 | without a match the result is no fields and the content unchanged |
| `Frontmatter.ParseShape` | ai_processor.py:91-96 | with a match, the content is the opening, the block, the closing and the body in order, the body is exactly the text after the closing delimiter, and the fields have distinct keys |
| `Frontmatter.ParseFrontmatter` | ai_processor.py:83-127 | the regex and the line loop compute the parse |
| `Frontmatter.ReadFields` | ai_processor.py:100-125 | the line loop fills the dict as the fields of the block's lines |
| `Frontmatter.ParseLine` | ai_processor.py:101-109 | blank, `#` and colon-less lines give nothing; otherwise the key is the stripped text before the first colon |
| `Frontmatter.FieldsIsDict` | ai_processor.py:98-125 | the dict built holds each key once |
| `Frontmatter.UpdateAllSpec` | ai_processor.py:140-141 | after the update, keys of the updates carry the new values, all other keys keep their old values, and the old keys keep their order with the new ones after them |
| `Frontmatter.PutGet` | ai_processor.py:140-141 | after storing a value under a key, that key reads the value and every other key reads as before |
| `Frontmatter.UpdateFrontmatter` | ai_processor.py:130-165 | the merge and the printing loop give the written text |
| `FrontmatterRoundTrip.ParseValueRender` | ai_processor.py:110-124 | a good value is written as a stripped one-line text that reads back as itself |
| `FrontmatterRoundTrip.ParseListRender` | ai_processor.py:118-121 | a written list `["a", "b"]` reads back as the same items; `[]` as the empty list |
| `FrontmatterRoundTrip.ParseLineRender` | ai_processor.py:100-125 | a written line reads back as its own key and value |
| `FrontmatterRoundTrip.FieldsRender` | ai_processor.py:144-162 | the written lines of a good dict read back as that dict |
| `FrontmatterRoundTrip.NoCloseInLines` | ai_processor.py:80 | no closing delimiter can start inside the written field lines |
| `FrontmatterRoundTrip.MatchOfText` | ai_processor.py:80 | the regex matches the written text at the delimiters that were written, its closing `\s*\n` reaching into the body's blank lines |
| `FrontmatterRoundTrip.RoundTrip` | ai_processor.py:83-165 | parsing what is written for a non-empty good dict gives the dict back, and the body less the blank lines the closing delimiter takes |
| `FrontmatterRoundTrip.ParsedBodyKept` | ai_processor.py:92-97 | a body that came out of a parsed block loses nothing when written and read again |
| `FrontmatterRoundTrip.UpdateThenParse` | ai_processor.py:130-165 | update then parse: the updated keys carry the new values, the other keys keep theirs in their order, and a body that followed a block comes back unchanged |
| `FrontmatterRoundTrip.QuotedReadsEscaped` | ai_processor.py:112-113 | a quoted string reads back with each `"` still escaped, so it survives exactly when it holds no `"` |
| `Prompt.Truncated` | ai_processor.py:327-328 | text up to 8000 characters is kept whole; longer text becomes its first 8000 characters followed by the marker |
| `Prompt.Header` | ai_processor.py:325 | the title header is empty exactly when the title is |
| `Prompt.BuildUserPrompt` | ai_processor.py:323-329 | the prompt opens with the header and the introduction, and its length is bounded whatever the article's length |
| `Prompt.TruncatedIdempotent` | ai_processor.py:327-328 | truncating what was truncated changes nothing |
| `Prompt.PromptArticle` | ai_processor.py:323-329 | after the header and introduction comes the whole article when it is short, or its first 8000 characters and the marker |
| `Prompt.PromptTitle` | ai_processor.py:325 | without a title the prompt opens with the introduction; with one, it opens with the label and the title |
| `Prompt.PromptDeterminedByArticle` | ai_processor.py:323-329 | with one title, two prompts are equal exactly when the articles truncate to the same text |
| `Prompt.Unprocessed` | ai_processor.py:242 | exactly the entries without AI data are kept |
| `Prompt.CappedChars` | ai_processor.py:243 | each entry adds at most 8000 characters |
| `Prompt.EstimateCounts` | ai_processor.py:242-248 | the article count is at most the number of entries; the characters are at most 8000 per article; the system tokens are 500 and the output tokens 300 per article |
| `Prompt.ArticleCountIsCount` | ai_processor.py:242 | the article count is the number of entries without AI data |
| `Prompt.EstimateAppend` | ai_processor.py:242-243 | the counts of two scans together are the sums of their counts |
| `Prompt.NothingToProcess` | ai_processor.py:242-248 | when every entry has AI data, the articles, characters and output tokens are all zero |
| `Prompt.ShortArticlesCountWhole` | ai_processor.py:243 | when no entry exceeds 8000 characters, the cap changes nothing |
| `Tasks.TaskRunner.constructor` | gui/workers/task_runner.py:28-32 | both maps start empty |
| `Tasks.TaskRunner.Submit` | gui/workers/task_runner.py:88-108 | the id's old event is set, then replaced by a fresh unset one; the new future is registered and the task is running; a pool that was shut down refuses the job after the event was registered |
| `Tasks.TaskRunner.Cleanup` | gui/workers/task_runner.py:111-114 | both entries of the id are dropped, whichever run registered them, and the id is no longer running |
| `Tasks.TaskRunner.Finish` | gui/workers/task_runner.py:111-120 | a finished future is done, and its callback drops the entries of the id it was submitted under |
| `Tasks.TaskRunner.Cancel` | gui/workers/task_runner.py:123-130 | true exactly when an event is registered for the id, which is then set; otherwise nothing changes |
| `Tasks.TaskRunner.Shutdown` | gui/workers/task_runner.py:138-143 | every registered event is set, no other event changes, and the maps stay as they were |
| `Tasks.ResubmitThenFirstEnds` | gui/workers/task_runner.py:88-136 | when a task is resubmitted and its first run then ends, the second run's entries are gone: `is_running` is false and `cancel` cannot reach it, although its future is not done |
| `Tasks.ErrorReports` | gui/workers/task_runner.py:53-60 | a call that returned reports nothing; one that raised reports the sentinel and its message |
| `Tasks.ResultQueue.Put` | gui/workers/task_runner.py:59-60 | the item is appended to what the queue holds |
| `Tasks.RunSafely` | gui/workers/task_runner.py:50-63 | the call's outcome is passed on unchanged, and only an exception is reported on a given queue |

## Left out

- HTTP, the browser and robots.txt fetching are not modelled: they are network I/O. Each strategy, the robots parser and every image download is a parameter.
- BeautifulSoup and markdownify parsing in `_parse_html_to_article` and in the HTML side of `_parse_ptt_article` is not modelled: it is a foreign library. `Extract.ParsePtt` starts from the extracted text, the meta title and the tag images.
- The MD5 folder suffix, `datetime.now()`, file reads and writes and `mkdir` are not modelled: they are foreign code, the clock and the filesystem. They become a hash function, date strings and the `OutputDir` value.
- The configuration loading is not modelled: it is file I/O. Its default constants are used instead.
- Logging and the batch report file are not modelled: they are I/O.
- The float part of `estimate_cost` is not modelled: it is floating point. This covers `int(total_chars / 2.5)`, the per-million prices chosen by model name and `round`.
- The AI calls `process_single_article` and `process_article_batch` are not modelled: they are foreign calls and file I/O.
- Threads, the lock, `ThreadPoolExecutor` and the queues' blocking are not modelled: they are concurrency. The task runner is a sequential state machine; a job ends when `Finish` is called.
- `Tasks.RunSafely`: the worker's own call is a parameter, the way it ended. A `put` that itself raises is not modelled, since the queues used never refuse a `put`.
- `Tasks.TaskRunner.Finish` requires that the future is not yet done: a future completes, and runs its done callbacks, once.
- The GUI, the API server, `paths.py` and `app.py` are not modelled: they are presentation and plumbing.
- `Text.AsciiLower`: Python's `str.lower` is modelled for ASCII letters only.
- `Extract.PttImageLine`: the `re.I` match of image links folds ASCII letters only. Python's case-insensitive matching of a `str` pattern also takes `ſ` (U+017F) for `s`, `ı` (U+0131) and `İ` (U+0130) for `i`, and `K` (U+212A) for `k`, so a line such as `httpſ://x.png` is an image link there and not here.
- `Ledger.Read`: JSON numbers are one kind of hashable item; their values, floats, and Python's equality of `1`, `1.0` and `True` are not modelled, since only the strings of the set and the presence of other items matter.
- `Batch.BatchFetchUrls` and `Batch.BatchFetch` require a ledger that reads and rewrites without an exception (`Ledger.Clean`). With a ledger that is not UTF-8 the first `is_already_fetched` raises and the batch stops. With a list that also holds a null, number or boolean, the first successful fetch saves its article and then `mark_as_fetched` raises from `sorted`. The model does not follow those exceptions through the batch; `Store.OutputDir.IsAlreadyFetched` and `Store.OutputDir.MarkAsFetched` state them.
- `Batch.BatchFetch`: the same ledger requirement as `Batch.BatchFetchUrls`, for the same reason.
- `Url.Parse` covers only the scheme, network location and path that `urlparse` yields for the scraper's URLs. The errors `urlsplit` raises for malformed IPv6 brackets are not modelled.
- Batch reading of the URL file does not model decoding. Text mode's universal newlines are modelled (`Batch.UniversalNewlines`).
- `Frontmatter.RenderValue`: list items are modelled as strings only. The `str(v)` of other item types is left out. A value of another type is a `Scalar` written with its text.
- `FrontmatterRoundTrip.RoundTrip`: it holds for non-empty dicts of values the parser can read back (`GoodDict`). An empty block is written as `---\n---\n`, which the regular expression does not match as a block, so it is excluded.
