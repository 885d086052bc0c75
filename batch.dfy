/** Batch fetching: a list of URLs is worked through one at a time against
    an output directory, skipping what the ledger already holds and what
    needs a login, and pausing between fetches. The report file that ends a
    batch is not modelled. */
module Batch {
  import opened Wrappers
  import opened Text
  import opened Ledger
  import opened Platform
  import opened Fetch
  import opened Store

  /** The pause between two fetches, in seconds (`politeness_delay`). */
  const PolitenessDelay: nat := 2

  /** The reason recorded for a URL the ledger already holds. */
  const AlreadyFetched: string := "已下載過"

  /** Appended to the platform name for a platform that needs a login. */
  const NeedsLogin: string := " 需要登入"

  /** One URL's entry in the batch results. */
  datatype Entry = Success(url: string, path: string) | Failed(url: string) | Skipped(url: string, reason: string)

  /** `results`: the three lists of the batch. */
  datatype Results = Results(success: seq<Entry>, failed: seq<Entry>, skipped: seq<Entry>)

  /** What the batch cannot see, for the item at each position (1-based):
      the network as the strategies and robots.txt see it, the clock, the
      URL digest and the image downloads. */
  datatype Env = Env(reachable: string -> bool, canFetch: (string, string) -> bool,
                     run: nat -> Strategy -> nat -> Option<Article>,
                     date: nat -> string, now: nat -> string, isoNow: nat -> string,
                     hash: string -> string, download: nat -> (string, string, string) -> bool)

  /** The part of an output directory a batch changes. */
  datatype State = State(fetched: set<string>, folders: set<string>, saved: map<string, Saved>)

  /** A URL that went to the network, whatever came of it. */
  predicate WasFetched(e: Entry) {
    e.Success? || e.Failed?
  }

  /** The article fetched for the item at position `i`, or None. */
  function Outcome(url: string, i: nat, env: Env): Option<Article> {
    FetchOutcome(url, env.reachable, env.canFetch, env.run(i), MaxRetries)
  }

  /** One iteration of the batch loop, for the URL at position `i`: the
      ledger is consulted first, the platform second, and only then is the
      article fetched and, if found, saved and recorded. */
  function Step(st: State, i: nat, url: string, env: Env): (r: (Entry, State))
    ensures r.0.url == url
    ensures r.0.Success? <==> url !in st.fetched && Outcome(url, i, env).Some?
    ensures r.0.Success? ==> r.1.fetched == st.fetched + {url}
    ensures !r.0.Success? ==> r.1 == st
  {
    if url in st.fetched then (Skipped(url, AlreadyFetched), st)
    else
      var platform := IdentifyPlatform(url);
      if platform.strategy == Skip then (Skipped(url, platform.name + NeedsLogin), st)
      else
        match Outcome(url, i, env)
        case None => (Failed(url), st)
        case Some(a) =>
          var folder := ArticleFolder(st.folders, env.date(i), a.title, a.url, env.hash);
          (Success(url, folder),
           State(st.fetched + {url}, st.folders + {folder},
                 st.saved[folder := SavedArticle(a, env.now(i), env.isoNow(i), env.download(i))]))
  }

  /** One iteration of a batch loop: the entry for a URL, and the state after it. */
  type Stepper = (State, nat, string) -> (Entry, State)

  /** The iteration of `batch_fetch_urls`. */
  function StepOf(env: Env): Stepper {
    (st: State, i: nat, url: string) => Step(st, i, url, env)
  }

  /** The entries of the items from position `i + 1` on, and the state after them. */
  function RunFrom(st: State, urls: seq<string>, i: nat, step: Stepper): (r: (seq<Entry>, State))
    requires i <= |urls|
    ensures |r.0| == |urls| - i
    decreases |urls| - i
  {
    if i == |urls| then ([], st)
    else
      var next := step(st, i + 1, urls[i]);
      var rest := RunFrom(next.1, urls, i + 1, step);
      ([next.0] + rest.0, rest.1)
  }

  /** The batch's entries in input order. */
  function Entries(st: State, urls: seq<string>, env: Env): seq<Entry> {
    RunFrom(st, urls, 0, StepOf(env)).0
  }

  /** The output directory after the batch. */
  function Final(st: State, urls: seq<string>, env: Env): State {
    RunFrom(st, urls, 0, StepOf(env)).1
  }

  /** Adding an entry to the list its kind belongs in. */
  function Add(r: Results, e: Entry): Results {
    match e
    case Success(_, _) => r.(success := r.success + [e])
    case Failed(_) => r.(failed := r.failed + [e])
    case Skipped(_, _) => r.(skipped := r.skipped + [e])
  }

  /** The three lists of a sequence of entries, each in order. */
  function Group(es: seq<Entry>): (r: Results)
    ensures |r.success| + |r.failed| + |r.skipped| == |es|
    ensures forall e :: e in r.success ==> e.Success? && e in es
    ensures forall e :: e in r.failed ==> e.Failed? && e in es
    ensures forall e :: e in r.skipped ==> e.Skipped? && e in es
  {
    if es == [] then Results([], [], [])
    else Add(Group(es[..|es| - 1]), es[|es| - 1])
  }

  /** The positions after which the batch pauses: after every item that went
      to the network, except the last of the list. */
  function Pauses(es: seq<Entry>, n: nat): seq<nat> {
    if es == [] then []
    else Pauses(es[..|es| - 1], n) + (if WasFetched(es[|es| - 1]) && |es| < n then [|es|] else [])
  }

  lemma GroupAppend(es: seq<Entry>, e: Entry)
    ensures Group(es + [e]) == Add(Group(es), e)
  {
    assert (es + [e])[..|es|] == es;
  }

  lemma PausesAppend(es: seq<Entry>, e: Entry, n: nat)
    ensures Pauses(es + [e], n) == Pauses(es, n) + (if WasFetched(e) && |es| + 1 < n then [|es| + 1] else [])
  {
    assert (es + [e])[..|es|] == es;
  }

  /** The URLs of some entries, as a multiset. */
  function UrlsOf(es: seq<Entry>): multiset<string> {
    if es == [] then multiset{} else UrlsOf(es[..|es| - 1]) + multiset{es[|es| - 1].url}
  }

  /** A ledger that still is what it was before, or one rewritten as the
      sorted list of the URLs it records. */
  ghost predicate LedgerAfter(before: LedgerFile, after: LedgerFile, fetched: set<string>, anySuccess: bool) {
    if anySuccess then after.Urls? && SortedListOf(after.urls, fetched) else after == before
  }

  lemma RunFromStep(st: State, urls: seq<string>, i: nat, step: Stepper)
    requires i < |urls|
    ensures var next := step(st, i + 1, urls[i]);
            RunFrom(st, urls, i, step).0 == [next.0] + RunFrom(next.1, urls, i + 1, step).0
            && RunFrom(st, urls, i, step).1 == RunFrom(next.1, urls, i + 1, step).1
  {
  }

  /** `batch_fetch_urls`: every URL in turn; `pauses` lists the positions
      after which the batch paused for `PolitenessDelay` seconds. */
  method BatchFetchUrls(dir: OutputDir, urls: seq<string>, env: Env) returns (results: Results, pauses: seq<nat>)
    requires Clean(dir.ledger)
    modifies dir
    ensures var st := State(old(dir.Fetched()), old(dir.folders), old(dir.saved));
            && results == Group(Entries(st, urls, env))
            && pauses == Pauses(Entries(st, urls, env), |urls|)
            && State(dir.Fetched(), dir.folders, dir.saved) == Final(st, urls, env)
            && LedgerAfter(old(dir.ledger), dir.ledger, dir.Fetched(), results.success != [])
  {
    ghost var st0 := State(dir.Fetched(), dir.folders, dir.saved);
    ghost var ledger0 := dir.ledger;
    ghost var done: seq<Entry> := [];
    ghost var cur := st0;
    results := Results([], [], []);
    pauses := [];
    var i := 0;
    assert Accounted(st0, urls, env, done, cur, i) by {
      assert done + RunFrom(st0, urls, 0, StepOf(env)).0 == RunFrom(st0, urls, 0, StepOf(env)).0;
    }
    while i < |urls|
      invariant 0 <= i <= |urls|
      invariant cur == State(dir.Fetched(), dir.folders, dir.saved)
      invariant Accounted(st0, urls, env, done, cur, i)
      invariant |done| == i
      invariant results == Group(done)
      invariant pauses == Pauses(done, |urls|)
      invariant LedgerAfter(ledger0, dir.ledger, dir.Fetched(), results.success != [])
      invariant Clean(dir.ledger)
    {
      ghost var next := Step(cur, i + 1, urls[i], env);
      ghost var ledgerBefore := dir.ledger;
      AccountedStep(st0, urls, env, done, cur, i);
      var e := Visit(dir, urls[i], i + 1, env, cur);
      LedgerAfterStep(ledger0, ledgerBefore, dir.ledger, results.success != [], e.Success?);
      AddSuccess(results, e);
      GroupAppend(done, e);
      PausesAppend(done, e, |urls|);
      results := Add(results, e);
      if WasFetched(e) && i + 1 < |urls| {
        pauses := pauses + [i + 1];
      }
      done := done + [e];
      cur := next.1;
      i := i + 1;
    }
    AccountedAll(st0, urls, env, done, cur);
  }

  /** The ledger after one more iteration: rewritten when that iteration
      succeeded, as before otherwise. */
  lemma LedgerAfterStep(ledger0: LedgerFile, before: LedgerFile, after: LedgerFile, anySuccess: bool, success: bool)
    requires LedgerAfter(ledger0, before, Load(before), anySuccess)
    requires success ==> after.Urls? && SortedListOf(after.urls, Load(after))
    requires !success ==> after == before
    ensures LedgerAfter(ledger0, after, Load(after), anySuccess || success)
  {
  }

  lemma AddSuccess(r: Results, e: Entry)
    ensures (Add(r, e).success != []) == (r.success != [] || e.Success?)
  {
  }

  /** The entries so far are `done`, the loop stands at position `i` in
      state `cur`, and the rest of the batch is what remains from there. */
  predicate Accounted(st0: State, urls: seq<string>, env: Env, done: seq<Entry>, cur: State, i: nat)
    requires i <= |urls|
  {
    && Entries(st0, urls, env) == done + RunFrom(cur, urls, i, StepOf(env)).0
    && Final(st0, urls, env) == RunFrom(cur, urls, i, StepOf(env)).1
  }

  /** One more iteration of the batch loop accounts for one more entry. */
  lemma AccountedStep(st0: State, urls: seq<string>, env: Env, done: seq<Entry>, cur: State, i: nat)
    requires i < |urls| && Accounted(st0, urls, env, done, cur, i)
    ensures Accounted(st0, urls, env, done + [Step(cur, i + 1, urls[i], env).0], Step(cur, i + 1, urls[i], env).1, i + 1)
  {
    RunFromStep(cur, urls, i, StepOf(env));
    assert StepOf(env)(cur, i + 1, urls[i]) == Step(cur, i + 1, urls[i], env);
  }

  /** At the end of the list, the entries are all done and the state is final. */
  lemma AccountedAll(st0: State, urls: seq<string>, env: Env, done: seq<Entry>, cur: State)
    requires Accounted(st0, urls, env, done, cur, |urls|)
    ensures Entries(st0, urls, env) == done && Final(st0, urls, env) == cur
  {
    assert done + [] == done;
  }

  /** The body of the batch loop for the URL at position `i`. */
  method Visit(dir: OutputDir, url: string, i: nat, env: Env, ghost st: State) returns (e: Entry)
    requires st == State(dir.Fetched(), dir.folders, dir.saved)
    requires Clean(dir.ledger)
    modifies dir
    ensures Clean(dir.ledger)
    ensures e == Step(st, i, url, env).0
    ensures State(dir.Fetched(), dir.folders, dir.saved) == Step(st, i, url, env).1
    ensures e.Success? ==> dir.ledger.Urls? && SortedListOf(dir.ledger.urls, dir.Fetched())
    ensures !e.Success? ==> dir.ledger == old(dir.ledger)
  {
    var seen := dir.IsAlreadyFetched(url);
    if seen == Some(true) {
      return Skipped(url, AlreadyFetched);
    }
    var platform := IdentifyPlatform(url);
    if platform.strategy == Skip {
      return Skipped(url, platform.name + NeedsLogin);
    }
    var article, _ := FetchArticle(url, env.reachable, env.canFetch, env.run(i), MaxRetries, RetryBaseDelay);
    if article.Some? {
      var a := article.value;
      var path := dir.SaveArticle(a, env.date(i), env.now(i), env.isoNow(i), env.hash, env.download(i));
      var _ := dir.MarkAsFetched(url);
      e := Success(url, path);
    } else {
      e := Failed(url);
    }
  }

  // ---------------------------------------------------------------
  // What a batch promises
  // ---------------------------------------------------------------

  /** What the lemmas below need of an iteration: its entry is for its URL,
      a URL already in the ledger is skipped as already fetched, and only a
      success adds to the ledger, adding its own URL, which was not there. */
  ghost predicate LedgerFirst(step: Stepper) {
    forall st, i, url ::
      && step(st, i, url).0.url == url
      && (url in st.fetched ==> step(st, i, url).0 == Skipped(url, AlreadyFetched))
      && (step(st, i, url).0.Success? ==> url !in st.fetched)
      && step(st, i, url).1.fetched == (if step(st, i, url).0.Success? then st.fetched + {url} else st.fetched)
  }

  /** `batch_fetch_urls` consults the ledger first. */
  lemma StepLedgerFirst(env: Env)
    ensures LedgerFirst(StepOf(env))
  {
    forall st, i, url
      ensures var r := StepOf(env)(st, i, url);
              && r.0.url == url
              && (url in st.fetched ==> r.0 == Skipped(url, AlreadyFetched))
              && (r.0.Success? ==> url !in st.fetched)
              && r.1.fetched == (if r.0.Success? then st.fetched + {url} else st.fetched)
    {
      assert StepOf(env)(st, i, url) == Step(st, i, url, env);
    }
  }

  /** Position by position, the entries are the input URLs. */
  lemma {:induction false} RunFromUrls(st: State, urls: seq<string>, i: nat, step: Stepper)
    requires i <= |urls| && LedgerFirst(step)
    ensures forall k :: 0 <= k < |urls| - i ==> RunFrom(st, urls, i, step).0[k].url == urls[i + k]
    decreases |urls| - i
  {
    if i < |urls| {
      var next := step(st, i + 1, urls[i]);
      RunFromUrls(next.1, urls, i + 1, step);
      RunFromStep(st, urls, i, step);
    }
  }

  function AllUrls(r: Results): multiset<string> {
    UrlsOf(r.success) + UrlsOf(r.failed) + UrlsOf(r.skipped)
  }

  lemma UrlsOfAppend(es: seq<Entry>, e: Entry)
    ensures UrlsOf(es + [e]) == UrlsOf(es) + multiset{e.url}
  {
    assert (es + [e])[..|es|] == es;
  }

  /** Adding an entry adds its URL to one list. */
  lemma AddUrls(r: Results, e: Entry)
    ensures AllUrls(Add(r, e)) == AllUrls(r) + multiset{e.url}
  {
    var u := multiset{e.url};
    var (s, f, k) := (UrlsOf(r.success), UrlsOf(r.failed), UrlsOf(r.skipped));
    if e.Success? {
      UrlsOfAppend(r.success, e);
      assert AllUrls(Add(r, e)) == (s + u) + f + k;
      UnionMoved(s, f, k, u, (s + u) + f + k);
    } else if e.Failed? {
      UrlsOfAppend(r.failed, e);
      assert AllUrls(Add(r, e)) == s + (f + u) + k;
      UnionMoved(s, f, k, u, s + (f + u) + k);
    } else {
      UrlsOfAppend(r.skipped, e);
      assert AllUrls(Add(r, e)) == s + f + (k + u);
      UnionMoved(s, f, k, u, s + f + (k + u));
    }
  }

  /** Adding to one of three parts adds to their union. */
  lemma UnionMoved(a: multiset<string>, b: multiset<string>, c: multiset<string>, u: multiset<string>, m: multiset<string>)
    requires m == (a + u) + b + c || m == a + (b + u) + c || m == a + b + (c + u)
    ensures m == a + b + c + u
  {
  }

  /** Grouping keeps every entry's URL, in exactly one list. */
  lemma {:induction false} GroupUrls(es: seq<Entry>)
    ensures AllUrls(Group(es)) == UrlsOf(es)
    decreases |es|
  {
    if es != [] {
      GroupUrls(es[..|es| - 1]);
      AddUrls(Group(es[..|es| - 1]), es[|es| - 1]);
    }
  }

  lemma {:induction false} UrlsOfSeq(es: seq<Entry>, urls: seq<string>)
    requires |es| == |urls| && forall k :: 0 <= k < |es| ==> es[k].url == urls[k]
    ensures UrlsOf(es) == multiset(urls)
    decreases |es|
  {
    if es != [] {
      var n := |es| - 1;
      UrlsOfSeq(es[..n], urls[..n]);
      assert urls == urls[..n] + [urls[n]];
    }
  }

  /** Every URL of the batch lands in exactly one of the three lists, as
      often as it occurs in the input. */
  lemma EveryUrlOnce(st: State, urls: seq<string>, env: Env)
    ensures AllUrls(Group(Entries(st, urls, env))) == multiset(urls)
  {
    StepLedgerFirst(env);
    RunFromUrls(st, urls, 0, StepOf(env));
    GroupUrls(Entries(st, urls, env));
    UrlsOfSeq(Entries(st, urls, env), urls);
  }

  /** The ledger is consulted before the platform: a URL already recorded is
      skipped as already fetched even when its platform needs a login, and a
      login platform's URL otherwise is skipped with the platform's name. */
  lemma DedupBeforeLogin(st: State, i: nat, url: string, env: Env)
    ensures url in st.fetched ==> Step(st, i, url, env).0 == Skipped(url, AlreadyFetched)
    ensures url !in st.fetched && IdentifyPlatform(url).strategy == Skip ==>
              Step(st, i, url, env).0 == Skipped(url, IdentifyPlatform(url).name + NeedsLogin)
  {
  }

  /** The URLs of the successful entries. */
  function SuccessUrls(es: seq<Entry>): set<string> {
    set e | e in es && e.Success? :: e.url
  }

  /** What a batch adds to the ledger: the URLs it saved, none of which was
      recorded before, each saved once. */
  lemma {:induction false} FetchedGrows(st: State, urls: seq<string>, i: nat, step: Stepper)
    requires i <= |urls| && LedgerFirst(step)
    ensures var r := RunFrom(st, urls, i, step);
            && r.1.fetched == st.fetched + SuccessUrls(r.0)
            && (forall k :: 0 <= k < |r.0| && r.0[k].Success? ==> r.0[k].url !in st.fetched)
            && (forall k, m :: 0 <= k < m < |r.0| && r.0[k].Success? && r.0[m].Success? ==> r.0[k].url != r.0[m].url)
    decreases |urls| - i
  {
    if i < |urls| {
      var next := step(st, i + 1, urls[i]);
      FetchedGrows(next.1, urls, i + 1, step);
      RunFromStep(st, urls, i, step);
      var rest := RunFrom(next.1, urls, i + 1, step).0;
      var es := [next.0] + rest;
      assert es == RunFrom(st, urls, i, step).0;
      assert forall x :: x in es <==> x == next.0 || x in rest;
      assert SuccessUrls(es) == (if next.0.Success? then {next.0.url} else {}) + SuccessUrls(rest);
      assert forall k :: 1 <= k < |es| ==> es[k] == rest[k - 1];
    }
  }

  /** The state a batch ends in, for the whole list. */
  lemma FinalFetched(st: State, urls: seq<string>, env: Env)
    ensures Final(st, urls, env).fetched == st.fetched + SuccessUrls(Entries(st, urls, env))
    ensures forall k, m :: 0 <= k < m < |urls| && Entries(st, urls, env)[k].Success? && Entries(st, urls, env)[m].Success?
              ==> urls[k] != urls[m]
  {
    StepLedgerFirst(env);
    FinalFetchedAll(st, urls, StepOf(env));
  }

  lemma FinalFetchedAll(st: State, urls: seq<string>, step: Stepper)
    requires LedgerFirst(step)
    ensures RunFrom(st, urls, 0, step).1.fetched == st.fetched + SuccessUrls(RunFrom(st, urls, 0, step).0)
    ensures forall k, m :: 0 <= k < m < |urls| && RunFrom(st, urls, 0, step).0[k].Success? && RunFrom(st, urls, 0, step).0[m].Success?
              ==> urls[k] != urls[m]
  {
    FetchedGrows(st, urls, 0, step);
    RunFromUrls(st, urls, 0, step);
    var es := RunFrom(st, urls, 0, step).0;
    forall k, m | 0 <= k < m < |urls| && es[k].Success? && es[m].Success? ensures urls[k] != urls[m] {
      assert es[k].url == urls[0 + k] && es[m].url == urls[0 + m];
    }
  }

  /** Once a URL is in the ledger or saved, a later occurrence of it in the
      same batch is skipped as already fetched. */
  lemma {:induction false} RepeatSkipped(st: State, urls: seq<string>, i: nat, step: Stepper, k: nat, m: nat)
    requires LedgerFirst(step)
    requires i <= |urls|
    requires k < m
    requires m < |urls| - i
    requires urls[i + k] == urls[i + m]
    ensures RunFrom(st, urls, i, step).0[k].Success? || urls[i + k] in st.fetched ==>
              RunFrom(st, urls, i, step).0[m] == Skipped(urls[i + m], AlreadyFetched)
    decreases |urls| - i
  {
    if !(RunFrom(st, urls, i, step).0[k].Success? || urls[i + k] in st.fetched) {
      return;
    }
    var next := step(st, i + 1, urls[i]);
    RunFromStep(st, urls, i, step);
    var rest := RunFrom(next.1, urls, i + 1, step).0;
    assert RunFrom(st, urls, i, step).0[m] == rest[m - 1];
    if k == 0 {
      assert urls[i] in next.1.fetched;
      KeptFrom(next.1, urls, i + 1, step, urls[i], m - 1);
    } else {
      assert RunFrom(st, urls, i, step).0[k] == rest[k - 1];
      RepeatSkipped(next.1, urls, i + 1, step, k - 1, m - 1);
    }
  }

  /** A URL in the ledger is skipped as already fetched wherever it occurs later. */
  lemma {:induction false} KeptFrom(st: State, urls: seq<string>, i: nat, step: Stepper, url: string, m: nat)
    requires LedgerFirst(step)
    requires i <= |urls| && m < |urls| - i && urls[i + m] == url && url in st.fetched
    ensures RunFrom(st, urls, i, step).0[m] == Skipped(url, AlreadyFetched)
    decreases |urls| - i
  {
    var next := step(st, i + 1, urls[i]);
    RunFromStep(st, urls, i, step);
    if m > 0 {
      KeptFrom(next.1, urls, i + 1, step, url, m - 1);
      assert RunFrom(st, urls, i, step).0[m] == RunFrom(next.1, urls, i + 1, step).0[m - 1];
    }
  }

  /** In a batch, a URL that occurs again after it was saved, or that the
      ledger held, is skipped as already fetched. */
  lemma RepeatedUrlSkipped(st: State, urls: seq<string>, env: Env, k: nat, m: nat)
    requires k < m < |urls| && urls[k] == urls[m]
    requires Entries(st, urls, env)[k].Success? || urls[k] in st.fetched
    ensures Entries(st, urls, env)[m] == Skipped(urls[m], AlreadyFetched)
  {
    StepLedgerFirst(env);
    RepeatSkippedAll(st, urls, StepOf(env), k, m);
  }

  lemma RepeatSkippedAll(st: State, urls: seq<string>, step: Stepper, k: nat, m: nat)
    requires LedgerFirst(step)
    requires k < m < |urls| && urls[k] == urls[m]
    ensures RunFrom(st, urls, 0, step).0[k].Success? || urls[k] in st.fetched ==>
              RunFrom(st, urls, 0, step).0[m] == Skipped(urls[m], AlreadyFetched)
  {
    RepeatSkipped(st, urls, 0, step, k, m);
  }

  /** The pauses: strictly increasing positions, none after the last URL,
      and one after every item that went to the network except the last. */
  lemma {:induction false} PausesShape(es: seq<Entry>, n: nat)
    requires |es| <= n
    ensures var p := Pauses(es, n);
            && (forall j :: 0 <= j < |p| ==> 1 <= p[j] < n && p[j] <= |es|)
            && (forall j, l :: 0 <= j < l < |p| ==> p[j] < p[l])
            && (forall k :: 0 <= k < |es| && k + 1 < n ==> (WasFetched(es[k]) <==> k + 1 in p))
    decreases |es|
  {
    if es != [] {
      var init := es[..|es| - 1];
      PausesShape(init, n);
      var p0 := Pauses(init, n);
      var t := if WasFetched(es[|es| - 1]) && |es| < n then [|es|] else [];
      assert Pauses(es, n) == p0 + t;
      PausesGrow(p0, t, |init|, n);
      forall k | 0 <= k < |es| && k + 1 < n ensures WasFetched(es[k]) <==> k + 1 in p0 + t {
        if k < |init| {
          assert es[k] == init[k];
          assert k + 1 in p0 + t <==> k + 1 in p0;
        }
      }
    }
  }

  /** Appending a pause after the last item keeps the pauses increasing and in range. */
  lemma PausesGrow(p0: seq<nat>, t: seq<nat>, m: nat, n: nat)
    requires forall j :: 0 <= j < |p0| ==> 1 <= p0[j] < n && p0[j] <= m
    requires forall j, l :: 0 <= j < l < |p0| ==> p0[j] < p0[l]
    requires t == [] || (t == [m + 1] && m + 1 < n)
    ensures forall j :: 0 <= j < |p0 + t| ==> 1 <= (p0 + t)[j] < n && (p0 + t)[j] <= m + 1
    ensures forall j, l :: 0 <= j < l < |p0 + t| ==> (p0 + t)[j] < (p0 + t)[l]
  {
  }

  // ---------------------------------------------------------------
  // The URL file
  // ---------------------------------------------------------------

  /** Text-mode reading: "\r\n" and a lone "\r" both become "\n". */
  function UniversalNewlines(s: string): (r: string)
    ensures '\r' !in r
    decreases |s|
  {
    if s == [] then []
    else if s[0] == '\r' then
      "\n" + UniversalNewlines(if |s| > 1 && s[1] == '\n' then s[2..] else s[1..])
    else [s[0]] + UniversalNewlines(s[1..])
  }

  /** A line of the URL file that names a URL: not blank and not a comment. */
  predicate IsUrlLine(line: string) {
    line != [] && !StartsWith(line, "#")
  }

  /** The URLs of some lines: each stripped, blank lines and comments dropped. */
  function KeptUrls(lines: seq<string>): seq<string> {
    if lines == [] then []
    else KeptUrls(lines[..|lines| - 1]) + (if IsUrlLine(Strip(lines[|lines| - 1])) then [Strip(lines[|lines| - 1])] else [])
  }

  /** `batch_fetch`'s reading of the URL file, line by line. */
  method UrlFileLines(text: string) returns (urls: seq<string>)
    ensures urls == KeptUrls(Split(UniversalNewlines(text), '\n'))
  {
    var lines := Split(UniversalNewlines(text), '\n');
    urls := [];
    var i := 0;
    while i < |lines|
      invariant 0 <= i <= |lines|
      invariant urls == KeptUrls(lines[..i])
    {
      assert lines[..i + 1][..i] == lines[..i];
      var line := Strip(lines[i]);
      if line != [] && !StartsWith(line, "#") {
        urls := urls + [line];
      }
      i := i + 1;
    }
    assert lines[..i] == lines;
  }

  /** Exactly the stripped lines that are neither blank nor comments are
      kept, in order: every kept URL is such a line, and every such line is
      kept. */
  lemma KeptUrlsSpec(lines: seq<string>)
    ensures forall u :: u in KeptUrls(lines) ==> IsUrlLine(u) && IsStripped(u)
    ensures forall k :: 0 <= k < |lines| && IsUrlLine(Strip(lines[k])) ==> Strip(lines[k]) in KeptUrls(lines)
    ensures |KeptUrls(lines)| <= |lines|
  {
    KeptUrlsSound(lines);
    KeptUrlsComplete(lines);
    KeptUrlsLength(lines);
  }

  lemma {:induction false} KeptUrlsSound(lines: seq<string>)
    ensures forall u :: u in KeptUrls(lines) ==> IsUrlLine(u) && IsStripped(u)
    decreases |lines|
  {
    if lines != [] {
      KeptUrlsSound(lines[..|lines| - 1]);
      StripIsStripped(lines[|lines| - 1]);
    }
  }

  lemma {:induction false} KeptUrlsComplete(lines: seq<string>)
    ensures forall k :: 0 <= k < |lines| && IsUrlLine(Strip(lines[k])) ==> Strip(lines[k]) in KeptUrls(lines)
    decreases |lines|
  {
    if lines != [] {
      var init := lines[..|lines| - 1];
      KeptUrlsComplete(init);
      forall k | 0 <= k < |lines| && IsUrlLine(Strip(lines[k])) ensures Strip(lines[k]) in KeptUrls(lines) {
        if k < |init| {
          assert lines[k] == init[k];
        }
      }
    }
  }

  lemma {:induction false} KeptUrlsLength(lines: seq<string>)
    ensures |KeptUrls(lines)| <= |lines|
    decreases |lines|
  {
    if lines != [] {
      KeptUrlsLength(lines[..|lines| - 1]);
    }
  }

  /** `batch_fetch`: the URL file's URLs, fetched as one batch. */
  method BatchFetch(dir: OutputDir, text: string, env: Env) returns (results: Results, pauses: seq<nat>)
    requires Clean(dir.ledger)
    modifies dir
    ensures var urls := KeptUrls(Split(UniversalNewlines(text), '\n'));
            var st := State(old(dir.Fetched()), old(dir.folders), old(dir.saved));
            && results == Group(Entries(st, urls, env))
            && pauses == Pauses(Entries(st, urls, env), |urls|)
            && State(dir.Fetched(), dir.folders, dir.saved) == Final(st, urls, env)
            && LedgerAfter(old(dir.ledger), dir.ledger, dir.Fetched(), results.success != [])
  {
    var urls := UrlFileLines(text);
    results, pauses := BatchFetchUrls(dir, urls, env);
  }
}
