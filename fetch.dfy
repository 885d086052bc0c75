/** Fetching one article: bounded retry with exponential backoff, the
    robots.txt gate and the ordered fallback over fetch strategies. The
    network is not part of the model: a strategy is an oracle that, for each
    attempt number, either yields an article or fails. */
module Fetch {
  import opened Wrappers
  import Url
  import opened Platform
  import Seqs

  /** Retry attempts per strategy and the first backoff delay in seconds
      (the configuration defaults). */
  const MaxRetries: int := 3
  const RetryBaseDelay: int := 2

  /** An article as the strategies return it; `platform` is filled in by
      the fetch driver. */
  datatype Article = Article(title: string, content: string, source: string, url: string,
                             platform: Option<string>)

  function Pow2(k: nat): (r: nat)
    ensures r >= 1
  {
    if k == 0 then 1 else 2 * Pow2(k - 1)
  }

  // ---------------------------------------------------------------
  // retry_fetch
  // ---------------------------------------------------------------

  /** One thing `retry_fetch` does: call the function, or sleep. */
  datatype Step = Attempt(index: nat) | Sleep(seconds: int)

  /** The first attempt number in `[from, n)` whose call succeeds. */
  function FirstSuccess<T>(call: nat -> Option<T>, from: nat, n: int): (r: Option<nat>)
    ensures r.Some? ==> from <= r.value < n && call(r.value).Some?
                        && forall k :: from <= k < r.value ==> call(k).None?
    ensures r.None? ==> forall k :: from <= k < n ==> call(k).None?
    decreases n - from
  {
    if from >= n then None
    else if call(from).Some? then Some(from)
    else FirstSuccess(call, from + 1, n)
  }

  /** What `retry_fetch` returns: the first successful call's result. */
  function RetryResult<T>(call: nat -> Option<T>, maxRetries: int): Option<T> {
    match FirstSuccess(call, 0, maxRetries)
    case Some(k) => call(k)
    case None => None
  }

  /** How many times `retry_fetch` calls the function. */
  function Attempts<T>(call: nat -> Option<T>, maxRetries: int): nat {
    match FirstSuccess(call, 0, maxRetries)
    case Some(k) => k + 1
    case None => if maxRetries < 0 then 0 else maxRetries
  }

  /** `calls` attempts with a sleep of `base * 2^k` seconds between attempt
      `k` and attempt `k + 1`. */
  function Backoff(calls: nat, base: int): (r: seq<Step>)
    ensures |r| == if calls == 0 then 0 else 2 * calls - 1
  {
    if calls == 0 then []
    else Backoff(calls - 1, base) + (if calls > 1 then [Sleep(base * Pow2(calls - 2))] else []) + [Attempt(calls - 1)]
  }

  /** Retry loop of `retry_fetch`: at most `maxRetries` calls, stopping at
      the first success and sleeping between failed attempts but never after
      the last one. Attempt `k` is `call(k)`. */
  method Retry<T>(call: nat -> Option<T>, maxRetries: int, base: int) returns (r: Option<T>, steps: seq<Step>)
    ensures r == RetryResult(call, maxRetries)
    ensures steps == Backoff(Attempts(call, maxRetries), base)
  {
    steps := [];
    var attempt := 0;
    while attempt < maxRetries
      invariant 0 <= attempt
      invariant attempt > 0 ==> attempt <= maxRetries
      invariant forall k :: 0 <= k < attempt ==> call(k).None?
      invariant steps == Backoff(attempt, base) + (if 0 < attempt < maxRetries then [Sleep(base * Pow2(attempt - 1))] else [])
      decreases maxRetries - attempt
    {
      var result := call(attempt);
      steps := steps + [Attempt(attempt)];
      if result.Some? {
        assert FirstSuccess(call, 0, maxRetries) == Some(attempt);
        return result, steps;
      }
      if attempt < maxRetries - 1 {
        steps := steps + [Sleep(base * Pow2(attempt))];
      }
      attempt := attempt + 1;
    }
    assert FirstSuccess(call, 0, maxRetries).None?;
    r := None;
  }

  /** The delays among the steps, in order. */
  function Sleeps(steps: seq<Step>): seq<int> {
    if steps == [] then []
    else (if steps[0].Sleep? then [steps[0].seconds] else []) + Sleeps(steps[1..])
  }

  /** The number of calls among the steps. */
  function CallCount(steps: seq<Step>): nat {
    if steps == [] then 0
    else (if steps[0].Attempt? then 1 else 0) + CallCount(steps[1..])
  }

  lemma {:induction false} SleepsAppend(a: seq<Step>, b: seq<Step>)
    ensures Sleeps(a + b) == Sleeps(a) + Sleeps(b)
  {
    if a == [] {
      assert a + b == b;
    } else {
      Seqs.TailOfAppend(a, b);
      SleepsAppend(a[1..], b);
      var h: seq<int> := if a[0].Sleep? then [a[0].seconds] else [];
      Seqs.AppendAssoc(h, Sleeps(a[1..]), Sleeps(b));
    }
  }

  lemma {:induction false} CallCountAppend(a: seq<Step>, b: seq<Step>)
    ensures CallCount(a + b) == CallCount(a) + CallCount(b)
  {
    if a == [] {
      assert a + b == b;
    } else {
      assert (a + b)[1..] == a[1..] + b;
      CallCountAppend(a[1..], b);
    }
  }

  /** The backoff schedule in full: the calls are numbered 0, 1, ... in
      order, exactly `calls - 1` sleeps happen, the `k`-th lasting
      `base * 2^k` seconds, and the last step is a call. */
  lemma BackoffSchedule(calls: nat, base: int)
    requires calls >= 1
    ensures CallCount(Backoff(calls, base)) == calls
    ensures Sleeps(Backoff(calls, base)) == seq(calls - 1, k requires 0 <= k => base * Pow2(k))
    ensures Backoff(calls, base)[|Backoff(calls, base)| - 1] == Attempt(calls - 1)
    ensures forall k :: 0 <= k < calls ==> Backoff(calls, base)[2 * k] == Attempt(k)
  {
    BackoffCallCount(calls, base);
    BackoffSleeps(calls, base);
    BackoffAttempts(calls, base);
  }

  /** One more call adds a sleep, when there was a call before, and the call. */
  lemma BackoffStep(calls: nat, base: int)
    requires calls >= 2
    ensures Backoff(calls, base) == Backoff(calls - 1, base) + [Sleep(base * Pow2(calls - 2))] + [Attempt(calls - 1)]
  {
  }

  lemma {:induction false} BackoffCallCount(calls: nat, base: int)
    ensures CallCount(Backoff(calls, base)) == calls
  {
    if calls == 1 {
      assert Backoff(calls, base) == [Attempt(0)];
    } else if calls >= 2 {
      var prev := Backoff(calls - 1, base);
      var gap := [Sleep(base * Pow2(calls - 2))];
      BackoffStep(calls, base);
      BackoffCallCount(calls - 1, base);
      CallCountAppend(prev + gap, [Attempt(calls - 1)]);
      CallCountAppend(prev, gap);
    }
  }

  lemma {:induction false} BackoffSleeps(calls: nat, base: int)
    requires calls >= 1
    ensures Sleeps(Backoff(calls, base)) == seq(calls - 1, k requires 0 <= k => base * Pow2(k))
  {
    if calls == 1 {
      assert Backoff(calls, base) == [Attempt(0)];
    } else {
      var prev := Backoff(calls - 1, base);
      var gap := [Sleep(base * Pow2(calls - 2))];
      BackoffStep(calls, base);
      BackoffSleeps(calls - 1, base);
      SleepsAppend(prev + gap, [Attempt(calls - 1)]);
      SleepsAppend(prev, gap);
      assert Sleeps([Attempt(calls - 1)]) == [];
      assert Sleeps(gap) == [base * Pow2(calls - 2)];
    }
  }

  lemma {:induction false} BackoffAttempts(calls: nat, base: int)
    requires calls >= 1
    ensures Backoff(calls, base)[|Backoff(calls, base)| - 1] == Attempt(calls - 1)
    ensures forall k :: 0 <= k < calls ==> Backoff(calls, base)[2 * k] == Attempt(k)
  {
    var b := Backoff(calls, base);
    if calls == 1 {
      assert b == [Attempt(0)];
    } else {
      var prev := Backoff(calls - 1, base);
      BackoffStep(calls, base);
      BackoffAttempts(calls - 1, base);
      forall k | 0 <= k < calls ensures b[2 * k] == Attempt(k) {
        if k < calls - 1 {
          assert b[2 * k] == prev[2 * k];
        }
      }
    }
  }

  /** The three retry scenarios of the scraper's tests, with three attempts
      and a base delay of 2 seconds: a first-try success calls once and
      never sleeps; two failures then a success call three times; three
      failures sleep 2 then 4 seconds and give up. */
  lemma RetryScenarios(call: nat -> Option<int>)
    ensures call(0).Some? ==> Attempts(call, MaxRetries) == 1 && RetryResult(call, MaxRetries) == call(0)
    ensures call(0).None? && call(1).None? && call(2).Some? ==>
              Attempts(call, MaxRetries) == 3 && RetryResult(call, MaxRetries) == call(2)
    ensures call(0).None? && call(1).None? && call(2).None? ==>
              RetryResult(call, MaxRetries) == None
              && Sleeps(Backoff(Attempts(call, MaxRetries), RetryBaseDelay)) == [2, 4]
  {
    if call(0).None? && call(1).None? && call(2).None? {
      BackoffSchedule(3, RetryBaseDelay);
      assert Pow2(1) == 2;
      assert seq(2, k requires 0 <= k => RetryBaseDelay * Pow2(k)) == [2, 4];
    }
  }

  // ---------------------------------------------------------------
  // robots.txt
  // ---------------------------------------------------------------

  /** `is_allowed_by_robots`. `reachable(origin)` says whether the origin's
      robots.txt could be fetched and parsed (the parser is cached per
      origin, so it is a function of the origin); `canFetch(origin, url)` is
      the parser's verdict for user agent "*". */
  predicate IsAllowedByRobots(url: string, reachable: string -> bool, canFetch: (string, string) -> bool) {
    var origin := Url.Origin(url);
    !reachable(origin) || canFetch(origin, url)
  }

  // ---------------------------------------------------------------
  // fetch_article
  // ---------------------------------------------------------------

  /** The strategies in the order the platform's recommendation implies,
      before the browser fallback is added. */
  function PreferredOrder(s: Strategy): seq<Strategy> {
    match s
    case Playwright => [Playwright, Bs4]
    case Bs4 => [Bs4, Jina]
    case _ => [Jina, Bs4]
  }

  /** The browser strategy is appended when it is not already in the list. */
  function WithFallback(order: seq<Strategy>): seq<Strategy> {
    if Playwright in order then order else order + [Playwright]
  }

  function StrategyOrder(s: Strategy): seq<Strategy> {
    WithFallback(PreferredOrder(s))
  }

  /** The strategy list never repeats a strategy, always includes the
      browser and the plain HTML parser, starts with the recommended strategy
      (the reader for anything not recommending the plain HTML parser or the
      browser) and ends with the browser unless the browser was recommended,
      in which case the plain HTML parser comes last. */
  lemma StrategyOrderShape(s: Strategy)
    ensures Seqs.NoDuplicates(StrategyOrder(s))
    ensures |StrategyOrder(s)| >= 2
    ensures Playwright in StrategyOrder(s)
    ensures StrategyOrder(s)[|StrategyOrder(s)| - 1] == if s == Playwright then Bs4 else Playwright
    ensures StrategyOrder(s)[0] == if s == Bs4 || s == Playwright then s else Jina
    ensures Bs4 in StrategyOrder(s) && Skip !in StrategyOrder(s)
  {
    match s
    case Playwright => assert StrategyOrder(s) == [Playwright, Bs4];
    case Bs4 => assert StrategyOrder(s) == [Bs4, Jina, Playwright];
    case Jina => assert StrategyOrder(s) == [Jina, Bs4, Playwright];
    case Skip => assert StrategyOrder(s) == [Jina, Bs4, Playwright];
  }

  /** The first strategy, in order, whose retries yield an article. */
  function FirstStrategy(order: seq<Strategy>, run: Strategy -> nat -> Option<Article>, maxRetries: int): Option<Article> {
    if order == [] then None
    else if RetryResult(run(order[0]), maxRetries).Some? then RetryResult(run(order[0]), maxRetries)
    else FirstStrategy(order[1..], run, maxRetries)
  }

  lemma StrategyStep(order: seq<Strategy>, run: Strategy -> nat -> Option<Article>, maxRetries: int, base: int)
    requires order != []
    ensures FirstStrategy(order, run, maxRetries)
            == if RetryResult(run(order[0]), maxRetries).Some? then RetryResult(run(order[0]), maxRetries)
               else FirstStrategy(order[1..], run, maxRetries)
    ensures StrategyTrace(order, run, maxRetries, base)
            == Tag(order[0], Backoff(Attempts(run(order[0]), maxRetries), base))
               + (if RetryResult(run(order[0]), maxRetries).Some? then [] else StrategyTrace(order[1..], run, maxRetries, base))
  {
  }

  /** The fallback finds an article exactly when some strategy's retries do,
      and then it is the article of the earliest such strategy. */
  lemma FirstStrategyWins(order: seq<Strategy>, run: Strategy -> nat -> Option<Article>, maxRetries: int)
    ensures FirstStrategy(order, run, maxRetries).Some?
            <==> exists i :: 0 <= i < |order| && RetryResult(run(order[i]), maxRetries).Some?
    ensures forall i :: 0 <= i < |order| && RetryResult(run(order[i]), maxRetries).Some?
              && (forall j :: 0 <= j < i ==> RetryResult(run(order[j]), maxRetries).None?)
              ==> FirstStrategy(order, run, maxRetries) == RetryResult(run(order[i]), maxRetries)
  {
    FirstStrategyFound(order, run, maxRetries);
    forall i | 0 <= i < |order| && RetryResult(run(order[i]), maxRetries).Some?
               && (forall j :: 0 <= j < i ==> RetryResult(run(order[j]), maxRetries).None?)
      ensures FirstStrategy(order, run, maxRetries) == RetryResult(run(order[i]), maxRetries)
    {
      FirstStrategyEarliest(order, run, maxRetries, i);
    }
  }

  lemma {:induction false} FirstStrategyFound(order: seq<Strategy>, run: Strategy -> nat -> Option<Article>, maxRetries: int)
    ensures FirstStrategy(order, run, maxRetries).Some?
            <==> exists i :: 0 <= i < |order| && RetryResult(run(order[i]), maxRetries).Some?
  {
    if order != [] {
      var tail := order[1..];
      FirstStrategyFound(tail, run, maxRetries);
      if RetryResult(run(order[0]), maxRetries).None? {
        if exists i :: 0 <= i < |order| && RetryResult(run(order[i]), maxRetries).Some? {
          var i :| 0 <= i < |order| && RetryResult(run(order[i]), maxRetries).Some?;
          assert tail[i - 1] == order[i];
        }
        if exists i :: 0 <= i < |tail| && RetryResult(run(tail[i]), maxRetries).Some? {
          var i :| 0 <= i < |tail| && RetryResult(run(tail[i]), maxRetries).Some?;
          assert order[i + 1] == tail[i];
        }
      }
    }
  }

  lemma {:induction false} FirstStrategyEarliest(order: seq<Strategy>, run: Strategy -> nat -> Option<Article>,
                                               maxRetries: int, i: nat)
    requires i < |order| && RetryResult(run(order[i]), maxRetries).Some?
    requires forall j :: 0 <= j < i ==> RetryResult(run(order[j]), maxRetries).None?
    ensures FirstStrategy(order, run, maxRetries) == RetryResult(run(order[i]), maxRetries)
  {
    if i > 0 {
      var tail := order[1..];
      assert RetryResult(run(order[0]), maxRetries).None?;
      assert tail[i - 1] == order[i];
      forall j | 0 <= j < i - 1 ensures RetryResult(run(tail[j]), maxRetries).None? {
        assert tail[j] == order[j + 1];
      }
      FirstStrategyEarliest(tail, run, maxRetries, i - 1);
    }
  }

  /** What the fetch driver does, in order. */
  datatype Event = RobotsCheck | Call(strategy: Strategy, attempt: nat) | Wait(seconds: int)

  function Tag(s: Strategy, steps: seq<Step>): (r: seq<Event>)
    ensures |r| == |steps|
    ensures forall i :: 0 <= i < |steps| ==>
              r[i] == match steps[i] { case Attempt(k) => Call(s, k) case Sleep(d) => Wait(d) }
  {
    if steps == [] then []
    else [match steps[0] { case Attempt(k) => Call(s, k) case Sleep(d) => Wait(d) }] + Tag(s, steps[1..])
  }

  /** The calls and sleeps of the strategies tried, up to the first that
      succeeds. */
  function StrategyTrace(order: seq<Strategy>, run: Strategy -> nat -> Option<Article>, maxRetries: int, base: int): seq<Event> {
    if order == [] then []
    else
      Tag(order[0], Backoff(Attempts(run(order[0]), maxRetries), base))
      + (if RetryResult(run(order[0]), maxRetries).Some? then [] else StrategyTrace(order[1..], run, maxRetries, base))
  }

  /** The article with the platform name recorded. */
  function WithPlatform(r: Option<Article>, name: string): Option<Article> {
    match r
    case None => None
    case Some(a) => Some(a.(platform := Some(name)))
  }

  /** The article `fetch_article` returns for `url`, or None. */
  function FetchOutcome(url: string, reachable: string -> bool, canFetch: (string, string) -> bool,
                        run: Strategy -> nat -> Option<Article>, maxRetries: int): (r: Option<Article>)
    ensures IdentifyPlatform(url).strategy == Skip ==> r == None
    ensures !IsAllowedByRobots(url, reachable, canFetch) ==> r == None
    ensures r.Some? ==> r.value.platform == Some(IdentifyPlatform(url).name)
  {
    var platform := IdentifyPlatform(url);
    if platform.strategy == Skip || !IsAllowedByRobots(url, reachable, canFetch) then None
    else WithPlatform(FirstStrategy(StrategyOrder(platform.strategy), run, maxRetries), platform.name)
  }

  /** Fail-open, for the whole fetch: when the origin's robots.txt cannot
      be read, the parser's verdict plays no part, and any platform that is
      not skipped goes straight to its strategies; when it can be read, a
      URL its parser refuses is never fetched. */
  lemma RobotsFailOpen(url: string, reachable: string -> bool, canFetch: (string, string) -> bool,
                       canFetch': (string, string) -> bool, run: Strategy -> nat -> Option<Article>, maxRetries: int)
    ensures !reachable(Url.Origin(url)) ==>
              FetchOutcome(url, reachable, canFetch, run, maxRetries)
              == FetchOutcome(url, reachable, canFetch', run, maxRetries)
    ensures !reachable(Url.Origin(url)) && IdentifyPlatform(url).strategy != Skip ==>
              FetchOutcome(url, reachable, canFetch, run, maxRetries)
              == WithPlatform(FirstStrategy(StrategyOrder(IdentifyPlatform(url).strategy), run, maxRetries),
                              IdentifyPlatform(url).name)
    ensures reachable(Url.Origin(url)) && !canFetch(Url.Origin(url), url) ==>
              FetchOutcome(url, reachable, canFetch, run, maxRetries) == None
  {
  }

  /** `fetch_article`: a platform marked "skip" is refused before anything
      else happens; then robots.txt is consulted; then the strategies are
      tried in order, each with retries, and the first article found is
      returned tagged with the platform's name. `run(s)(k)` is the outcome of
      attempt `k` of strategy `s`. */
  method FetchArticle(url: string, reachable: string -> bool, canFetch: (string, string) -> bool,
                      run: Strategy -> nat -> Option<Article>, maxRetries: int, base: int)
    returns (r: Option<Article>, trace: seq<Event>)
    ensures r == FetchOutcome(url, reachable, canFetch, run, maxRetries)
    ensures IdentifyPlatform(url).strategy == Skip ==> r == None && trace == []
    ensures IdentifyPlatform(url).strategy != Skip && !IsAllowedByRobots(url, reachable, canFetch) ==>
              r == None && trace == [RobotsCheck]
    ensures IdentifyPlatform(url).strategy != Skip && IsAllowedByRobots(url, reachable, canFetch) ==>
              var order := StrategyOrder(IdentifyPlatform(url).strategy);
              r == WithPlatform(FirstStrategy(order, run, maxRetries), IdentifyPlatform(url).name)
              && trace == [RobotsCheck] + StrategyTrace(order, run, maxRetries, base)
  {
    var platform := IdentifyPlatform(url);
    if platform.strategy == Skip {
      return None, [];
    }
    trace := [RobotsCheck];
    if !IsAllowedByRobots(url, reachable, canFetch) {
      return None, trace;
    }
    var strategies := PreferredOrder(platform.strategy);
    if Playwright !in strategies {
      strategies := strategies + [Playwright];
    }
    var found, tried := TryStrategies(strategies, run, maxRetries, base);
    trace := trace + tried;
    r := if found.Some? then Some(found.value.(platform := Some(platform.name))) else None;
  }

  /** The strategy loop of `fetch_article`: each strategy in turn gets its
      retries, and the first article found ends the loop. */
  method TryStrategies(strategies: seq<Strategy>, run: Strategy -> nat -> Option<Article>, maxRetries: int, base: int)
    returns (r: Option<Article>, trace: seq<Event>)
    ensures r == FirstStrategy(strategies, run, maxRetries)
    ensures trace == StrategyTrace(strategies, run, maxRetries, base)
  {
    trace := [];
    var i := 0;
    while i < |strategies|
      invariant 0 <= i <= |strategies|
      invariant Tried(strategies, run, maxRetries, base, trace, i)
    {
      var result, steps := Retry(run(strategies[i]), maxRetries, base);
      TriedStep(strategies, run, maxRetries, base, trace, i);
      trace := trace + Tag(strategies[i], steps);
      if result.Some? {
        return result, trace;
      }
      i := i + 1;
    }
    r := None;
  }

  /** After the first `i` strategies found nothing, with `trace` recorded. */
  predicate Tried(strategies: seq<Strategy>, run: Strategy -> nat -> Option<Article>, maxRetries: int, base: int,
                  trace: seq<Event>, i: nat)
    requires i <= |strategies|
  {
    && FirstStrategy(strategies, run, maxRetries) == FirstStrategy(strategies[i..], run, maxRetries)
    && StrategyTrace(strategies, run, maxRetries, base) == trace + StrategyTrace(strategies[i..], run, maxRetries, base)
  }

  /** One turn of the strategy loop: strategy `i` either finds the article,
      which ends the trace, or the loop goes on from `i + 1`. */
  lemma TriedStep(strategies: seq<Strategy>, run: Strategy -> nat -> Option<Article>, maxRetries: int, base: int,
                  trace: seq<Event>, i: nat)
    requires i < |strategies| && Tried(strategies, run, maxRetries, base, trace, i)
    ensures var result := RetryResult(run(strategies[i]), maxRetries);
            var trace' := trace + Tag(strategies[i], Backoff(Attempts(run(strategies[i]), maxRetries), base));
            && (result.Some? ==> result == FirstStrategy(strategies, run, maxRetries)
                                 && trace' == StrategyTrace(strategies, run, maxRetries, base))
            && (result.None? ==> Tried(strategies, run, maxRetries, base, trace', i + 1))
  {
    var rest := strategies[i..];
    StrategyStep(rest, run, maxRetries, base);
    assert rest[0] == strategies[i];
    assert rest[1..] == strategies[i + 1..];
  }

  /** Retries are bounded per strategy: every strategy appearing in the
      trace is one of the ordered strategies, and no attempt number reaches
      the retry limit. */
  lemma {:induction false} TraceBounded(order: seq<Strategy>, run: Strategy -> nat -> Option<Article>, maxRetries: int, base: int)
    ensures forall e :: e in StrategyTrace(order, run, maxRetries, base) && e.Call? ==>
              e.strategy in order && e.attempt < maxRetries
  {
    if order != [] {
      TraceBounded(order[1..], run, maxRetries, base);
      var n := Attempts(run(order[0]), maxRetries);
      TagBounded(order[0], n, base);
      var head := Tag(order[0], Backoff(n, base));
      var tail: seq<Event> := if RetryResult(run(order[0]), maxRetries).Some? then [] else StrategyTrace(order[1..], run, maxRetries, base);
      assert StrategyTrace(order, run, maxRetries, base) == head + tail;
      forall e | e in head + tail && e.Call? ensures e.strategy in order && e.attempt < maxRetries {
        if e in head {
          assert order[0] in order;
        } else {
          assert e in tail;
        }
      }
    }
  }

  /** The calls of one strategy's schedule are that strategy's, numbered
      below the number of calls. */
  lemma TagBounded(s: Strategy, n: nat, base: int)
    ensures forall e :: e in Tag(s, Backoff(n, base)) && e.Call? ==> e.strategy == s && e.attempt < n
  {
    var head := Tag(s, Backoff(n, base));
    forall e | e in head && e.Call? ensures e.strategy == s && e.attempt < n {
      var i :| 0 <= i < |head| && head[i] == e;
      BackoffCalls(n, base, i);
    }
  }

  /** Every call in a backoff schedule of `calls` attempts is numbered below `calls`. */
  lemma {:induction false} BackoffCalls(calls: nat, base: int, i: nat)
    requires i < |Backoff(calls, base)|
    ensures Backoff(calls, base)[i].Attempt? ==> Backoff(calls, base)[i].index < calls
  {
    if calls > 0 {
      var prev := Backoff(calls - 1, base);
      if i < |prev| {
        BackoffCalls(calls - 1, base, i);
        assert Backoff(calls, base)[i] == prev[i];
      }
    }
  }
}
