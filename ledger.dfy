/** The dedup ledger: the set of URLs already fetched, persisted as a JSON
    list written in sorted order. The file's states are modelled directly;
    reading and writing it are not. */
module Ledger {

  /** The ledger file's name inside the output directory. */
  const DedupFile: string := ".fetched_urls.json"

  /** An item of a JSON list, as `set()` sees it: a string, another
      hashable value (null, a number, a boolean) or an unhashable one (a
      list or an object). */
  datatype Item = Str(s: string) | Hashable | Unhashable

  /** What the ledger file holds: nothing yet, bytes that are not UTF-8,
      text that is not JSON, or a JSON value of each kind `set()` treats
      differently. `Urls` is a list of strings, the form the program writes;
      `Items` is any other list. */
  datatype LedgerFile =
    | Missing
    | NotUtf8
    | NotJson
    | Scalar
    | Text(text: string)
    | Object(keys: seq<string>)
    | Urls(urls: seq<string>)
    | Items(items: seq<Item>)

  /** The outcome of reading the ledger: the strings in the set it loads,
      and whether that set also holds something that is not a string; or an
      exception that escapes the read. */
  datatype Loaded = Loaded(urls: set<string>, others: bool) | Raised

  /** `_load_dedup_record`. A missing file, text that is not JSON, and a
      JSON value `set()` refuses (null, a number, a boolean, a list with an
      unhashable item) are the empty set; a JSON string is the set of its
      characters, an object the set of its keys, a list the set of its
      items. Bytes that are not UTF-8 raise from `read_text`, which no
      handler catches. */
  function Read(f: LedgerFile): (r: Loaded)
    ensures r.Raised? <==> f.NotUtf8?
    ensures f.Missing? || f.NotJson? || f.Scalar? ==> r == Loaded({}, false)
    ensures f.Text? ==> !r.others && forall u :: u in r.urls <==> |u| == 1 && u[0] in f.text
    ensures f.Object? ==> !r.others && forall u :: u in r.urls <==> u in f.keys
    ensures f.Urls? ==> !r.others && forall u :: u in r.urls <==> u in f.urls
    ensures f.Items? && Unhashable in f.items ==> r == Loaded({}, false)
    ensures f.Items? && Unhashable !in f.items ==>
              && (forall u :: u in r.urls <==> Str(u) in f.items)
              && (r.others <==> Hashable in f.items)
  {
    match f
    case NotUtf8 => Raised
    case Text(t) =>
      assert forall u: string :: |u| == 1 ==> u == [u[0]];
      Loaded(set c | c in t :: [c], false)
    case Object(ks) => Loaded(set u | u in ks, false)
    case Urls(xs) => Loaded(set u | u in xs, false)
    case Items(xs) =>
      if Unhashable in xs then Loaded({}, false)
      else Loaded(set x | x in xs && x.Str? :: x.s, Hashable in xs)
    case _ => Loaded({}, false)
  }

  /** The URLs a read of the ledger finds: none when the read raises. */
  function Load(f: LedgerFile): (r: set<string>)
    ensures Read(f).Loaded? ==> r == Read(f).urls
    ensures f.NotUtf8? ==> r == {}
    ensures f.Urls? ==> forall u :: u in r <==> u in f.urls
  {
    match Read(f)
    case Loaded(us, _) => us
    case Raised => {}
  }

  /** A ledger that can be read and rewritten without an exception: the
      read does not raise, and `sorted` after adding a URL meets only
      strings. */
  predicate Clean(f: LedgerFile) {
    Read(f).Loaded? && !Read(f).others
  }

  /** Python's `<` on strings: code-point lexicographic order. */
  predicate LexLess(a: string, b: string) {
    if a == [] then b != []
    else b != [] && (a[0] < b[0] || (a[0] == b[0] && LexLess(a[1..], b[1..])))
  }

  predicate StrictlySorted(xs: seq<string>) {
    forall i, j :: 0 <= i < j < |xs| ==> LexLess(xs[i], xs[j])
  }

  /** What `sorted(s)` is for a set: its elements, each once, in increasing order. */
  ghost predicate SortedListOf(xs: seq<string>, s: set<string>) {
    StrictlySorted(xs) && forall u :: u in xs <==> u in s
  }

  lemma {:induction false} LexLessIrreflexive(a: string)
    ensures !LexLess(a, a)
  {
    if a != [] {
      LexLessIrreflexive(a[1..]);
    }
  }

  lemma {:induction false} LexLessTransitive(a: string, b: string, c: string)
    requires LexLess(a, b) && LexLess(b, c)
    ensures LexLess(a, c)
  {
    if a != [] && b != [] && c != [] && a[0] == b[0] && b[0] == c[0] {
      LexLessTransitive(a[1..], b[1..], c[1..]);
    }
  }

  lemma {:induction false} LexLessTotal(a: string, b: string)
    requires a != b
    ensures LexLess(a, b) || LexLess(b, a)
  {
    if a != [] && b != [] && a[0] == b[0] {
      assert a == [a[0]] + a[1..] && b == [b[0]] + b[1..];
      LexLessTotal(a[1..], b[1..]);
    }
  }

  /** A list holds some element exactly when its set is non-empty. */
  lemma EmptyIff(xs: seq<string>, s: set<string>)
    requires forall u :: u in xs <==> u in s
    ensures xs == [] <==> s == {}
  {
    if xs != [] {
      assert xs[0] in xs;
    }
    if s != {} {
      var u :| u in s;
      assert u in xs;
    }
  }

  /** The head of a sorted list of a set is below every other element. */
  lemma HeadIsLeast(xs: seq<string>, s: set<string>)
    requires SortedListOf(xs, s) && xs != []
    ensures xs[0] in s
    ensures forall u :: u in s && u != xs[0] ==> LexLess(xs[0], u)
  {
    assert xs[0] in xs;
    forall u | u in s && u != xs[0] ensures LexLess(xs[0], u) {
      assert u in xs;
      var k :| 0 <= k < |xs| && xs[k] == u;
      assert 0 < k;
    }
  }

  /** `sorted` of a set is determined: two sorted lists of the same set are equal. */
  lemma {:induction false} SortedListUnique(xs: seq<string>, ys: seq<string>, s: set<string>)
    requires SortedListOf(xs, s) && SortedListOf(ys, s)
    ensures xs == ys
    decreases |xs|
  {
    EmptyIff(xs, s);
    EmptyIff(ys, s);
    if xs != [] {
      HeadIsLeast(xs, s);
      HeadIsLeast(ys, s);
      assert xs[0] == ys[0] by {
        if xs[0] != ys[0] {
          LexLessTransitive(xs[0], ys[0], xs[0]);
          LexLessIrreflexive(xs[0]);
        }
      }
      var s' := s - {xs[0]};
      forall u ensures u in xs[1..] <==> u in s' {
        if u in xs[1..] {
          var k :| 1 <= k < |xs| && xs[k] == u;
          assert LexLess(xs[0], xs[k]);
          if u == xs[0] { LexLessIrreflexive(u); }
        }
        if u in s' {
          assert u in xs && u != xs[0];
        }
      }
      forall u ensures u in ys[1..] <==> u in s' {
        if u in ys[1..] {
          var k :| 1 <= k < |ys| && ys[k] == u;
          assert LexLess(ys[0], ys[k]);
          if u == ys[0] { LexLessIrreflexive(u); }
        }
        if u in s' {
          assert u in ys && u != ys[0];
        }
      }
      SortedListUnique(xs[1..], ys[1..], s');
      assert xs == [xs[0]] + xs[1..] && ys == [ys[0]] + ys[1..];
    }
  }

  /** The least element of a non-empty set, found by a scan. */
  method Least(s: set<string>) returns (m: string)
    requires s != {}
    ensures m in s && forall u :: u in s && u != m ==> LexLess(m, u)
  {
    m :| m in s;
    var pool := s - {m};
    ghost var seen := {m};
    while pool != {}
      invariant pool + seen == s && pool !! seen
      invariant m in seen
      invariant forall u :: u in seen && u != m ==> LexLess(m, u)
      decreases |pool|
    {
      var u :| u in pool;
      if LexLess(u, m) {
        forall v | v in seen && v != u ensures LexLess(u, v) {
          if v != m {
            LexLessTransitive(u, m, v);
          }
        }
        m := u;
      }
      else {
        if u != m {
          LexLessTotal(u, m);
        }
      }
      pool := pool - {u};
      seen := seen + {u};
    }
  }

  /** `sorted(fetched_urls)`, by repeatedly taking the least remaining URL. */
  method SortUrls(s: set<string>) returns (xs: seq<string>)
    ensures SortedListOf(xs, s)
  {
    xs := [];
    var rest := s;
    while rest != {}
      invariant rest <= s
      invariant forall u :: u in xs <==> u in s && u !in rest
      invariant StrictlySorted(xs)
      invariant forall i, u :: 0 <= i < |xs| && u in rest ==> LexLess(xs[i], u)
      decreases |rest|
    {
      var m := Least(rest);
      xs := xs + [m];
      rest := rest - {m};
    }
  }

  /** Reading back what was written gives the same set, and the written
      ledger is clean. */
  lemma LoadSorted(xs: seq<string>, s: set<string>)
    requires SortedListOf(xs, s)
    ensures Load(Urls(xs)) == s
    ensures Clean(Urls(xs))
  {
  }
}
