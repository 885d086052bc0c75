/** The part of Python's `urllib.parse.urlparse` the scraper reads: the scheme,
    the network location and the path. */
module Url {
  import opened Text

  datatype UrlParts = UrlParts(scheme: string, netloc: string, path: string)

  /** Leading C0 control characters and spaces are dropped before parsing. */
  function LStripControl(s: string): (r: string)
    ensures |r| <= |s|
    ensures r != [] ==> r[0] > ' '
  {
    if s != [] && s[0] <= ' ' then LStripControl(s[1..]) else s
  }

  /** Tabs, carriage returns and line feeds are removed anywhere in the URL. */
  function RemoveUnsafe(s: string): (r: string)
    ensures forall i :: 0 <= i < |r| ==> r[i] != '\t' && r[i] != '\r' && r[i] != '\n'
  {
    if s == [] then []
    else if s[0] == '\t' || s[0] == '\r' || s[0] == '\n' then RemoveUnsafe(s[1..])
    else [s[0]] + RemoveUnsafe(s[1..])
  }

  /** The URL as parsed: leading controls and spaces dropped, tabs and line breaks removed. */
  function Clean(url: string): string {
    RemoveUnsafe(LStripControl(url))
  }

  predicate IsAsciiLetter(c: char) {
    ('a' <= c <= 'z') || ('A' <= c <= 'Z')
  }

  predicate IsSchemeChar(c: char) {
    IsAsciiLetter(c) || ('0' <= c <= '9') || c == '+' || c == '-' || c == '.'
  }

  /** A prefix before the first ':' is a scheme when it is non-empty, starts
      with a letter and uses only letters, digits, '+', '-' and '.'. */
  predicate HasScheme(s: string) {
    ':' in s && IndexOf(s, ':') > 0 && IsAsciiLetter(s[0])
    && forall k :: 0 <= k < IndexOf(s, ':') ==> IsSchemeChar(s[k])
  }

  /** Index of the first of `cs` in `s` at or after `start`, or `|s|`. */
  function FirstOf(s: string, cs: set<char>, start: nat): (i: nat)
    requires start <= |s|
    ensures start <= i <= |s|
    ensures i < |s| ==> s[i] in cs
    ensures forall j :: start <= j < i ==> s[j] !in cs
    decreases |s| - start
  {
    if start == |s| || s[start] in cs then start else FirstOf(s, cs, start + 1)
  }

  /** Index of the last '/' in `s`, or 0 when there is none (Python's
      `find(';', rfind('/'))` starts at 0 then too, since rfind gives -1). */
  function LastSlashFrom(s: string): (i: nat)
    ensures i <= |s|
    ensures i < |s| && '/' in s ==> s[i] == '/'
    ensures forall j :: i < j < |s| ==> s[j] != '/'
  {
    if s == [] then 0
    else if s[|s| - 1] == '/' then |s| - 1
    else LastSlashFrom(s[..|s| - 1])
  }

  /** The schemes whose paths carry ';' parameters. */
  const UsesParams: set<string> := {"", "ftp", "hdl", "prospero", "http", "imap", "https",
    "shttp", "rtsp", "rtsps", "rtspu", "sip", "sips", "mms", "sftp", "tel"}

  /** The path with its ';' parameters removed, as `urlparse` does for the
      schemes in `UsesParams`. */
  function StripParams(path: string): (r: string)
    ensures |r| <= |path| && r == path[..|r|]
  {
    var from := LastSlashFrom(path);
    var i := FirstOf(path, {';'}, from);
    path[..i]
  }

  predicate IsNetlocEnd(c: char) {
    c == '/' || c == '?' || c == '#'
  }

  /** Index of the first '/', '?' or '#' at or after `start`, or `|s|`. */
  function FirstNetlocEnd(s: string, start: nat): (i: nat)
    requires start <= |s|
    ensures start <= i <= |s|
    ensures i < |s| ==> IsNetlocEnd(s[i])
    ensures forall j :: start <= j < i ==> !IsNetlocEnd(s[j])
    decreases |s| - start
  {
    if start == |s| || IsNetlocEnd(s[start]) then start else FirstNetlocEnd(s, start + 1)
  }

  /** The scheme, lower-cased, and the text after its ':'; no scheme gives "". */
  function SplitScheme(u: string): (r: (string, string))
  {
    if HasScheme(u) then (AsciiLower(u[..IndexOf(u, ':')]), u[IndexOf(u, ':') + 1..]) else ("", u)
  }

  /** After a leading "//", the network location runs up to the first '/', '?' or '#'. */
  function SplitNetloc(rest: string): (r: (string, string))
    ensures forall k :: 0 <= k < |r.0| ==> !IsNetlocEnd(r.0[k])
  {
    if StartsWith(rest, "//") then
      var e := FirstNetlocEnd(rest, 2);
      (rest[2..e], rest[e..])
    else ("", rest)
  }

  /** The path: the fragment and the query are cut off, then the parameters. */
  function PathOf(scheme: string, rem: string): (r: string)
    ensures forall k :: 0 <= k < |r| ==> r[k] != '?' && r[k] != '#'
  {
    var noFrag := rem[..FirstOf(rem, {'#'}, 0)];
    var path := noFrag[..FirstOf(noFrag, {'?'}, 0)];
    assert forall k :: 0 <= k < |path| ==> path[k] != '?' && path[k] != '#' by {
      forall k | 0 <= k < |path| ensures path[k] != '?' && path[k] != '#' {
        assert path[k] == noFrag[k] == rem[k];
      }
    }
    var r := if scheme in UsesParams then StripParams(path) else path;
    assert forall k :: 0 <= k < |r| ==> r[k] == path[k];
    r
  }

  function Parse(url: string): (r: UrlParts)
    ensures forall k :: 0 <= k < |r.netloc| ==> !IsNetlocEnd(r.netloc[k])
    ensures forall k :: 0 <= k < |r.path| ==> r.path[k] != '?' && r.path[k] != '#'
  {
    var s := SplitScheme(Clean(url));
    var n := SplitNetloc(s.1);
    UrlParts(s.0, n.0, PathOf(s.0, n.1))
  }

  /** `f"{scheme}://{netloc}"`, the origin that robots.txt is fetched for. */
  function Origin(url: string): string {
    var p := Parse(url);
    p.scheme + "://" + p.netloc
  }

  // ---------------------------------------------------------------
  // Lemmas
  // ---------------------------------------------------------------

  lemma {:induction false} RemoveUnsafeNoop(s: string)
    requires NoUnsafe(s)
    ensures RemoveUnsafe(s) == s
  {
    if s != [] {
      RemoveUnsafeNoop(s[1..]);
    }
  }

  lemma {:induction false} FirstOfAt(s: string, cs: set<char>, start: nat, e: nat)
    requires start <= e <= |s|
    requires forall j :: start <= j < e ==> s[j] !in cs
    requires e == |s| || s[e] in cs
    ensures FirstOf(s, cs, start) == e
    decreases e - start
  {
    if start < e {
      FirstOfAt(s, cs, start + 1, e);
    }
  }

  lemma {:induction false} FirstNetlocEndAt(s: string, start: nat, e: nat)
    requires start <= e <= |s|
    requires forall j :: start <= j < e ==> !IsNetlocEnd(s[j])
    requires e == |s| || IsNetlocEnd(s[e])
    ensures FirstNetlocEnd(s, start) == e
    decreases e - start
  {
    if start < e {
      FirstNetlocEndAt(s, start + 1, e);
    }
  }

  predicate NoUnsafe(s: string) {
    forall k :: 0 <= k < |s| ==> s[k] != '\t' && s[k] != '\r' && s[k] != '\n'
  }

  lemma NoUnsafeConcat(a: string, b: string)
    ensures NoUnsafe(a + b) <==> NoUnsafe(a) && NoUnsafe(b)
  {
    if NoUnsafe(a) && NoUnsafe(b) {
      forall k | 0 <= k < |a + b| ensures (a + b)[k] != '\t' && (a + b)[k] != '\r' && (a + b)[k] != '\n' {
        if k < |a| { assert (a + b)[k] == a[k]; } else { assert (a + b)[k] == b[k - |a|]; }
      }
    }
    if NoUnsafe(a + b) {
      forall k | 0 <= k < |a| ensures a[k] != '\t' && a[k] != '\r' && a[k] != '\n' {
        assert (a + b)[k] == a[k];
      }
      forall k | 0 <= k < |b| ensures b[k] != '\t' && b[k] != '\r' && b[k] != '\n' {
        assert (a + b)[|a| + k] == b[k];
      }
    }
  }

  lemma SchemeIsSafe(scheme: string)
    requires forall k :: 0 <= k < |scheme| ==> IsSchemeChar(scheme[k])
    ensures NoUnsafe(scheme + "://")
  {
    var s := scheme + "://";
    forall k | 0 <= k < |s| ensures s[k] != '\t' && s[k] != '\r' && s[k] != '\n' {
      if k < |scheme| {
        assert s[k] == scheme[k] && IsSchemeChar(scheme[k]);
      }
    }
  }

  lemma SplitSchemeAt(scheme: string, after: string)
    requires |scheme| > 0 && IsAsciiLetter(scheme[0])
    requires forall k :: 0 <= k < |scheme| ==> IsSchemeChar(scheme[k])
    ensures SplitScheme(scheme + ":" + after) == (AsciiLower(scheme), after)
  {
    var url := scheme + ":" + after;
    assert url == scheme + [':'] + after;
    assert ':' !in scheme by {
      forall k | 0 <= k < |scheme| ensures scheme[k] != ':' {
        assert IsSchemeChar(scheme[k]);
      }
    }
    IndexOfConcat(scheme, ':', after);
    assert url[..|scheme|] == scheme;
    assert url[|scheme| + 1..] == after;
  }

  lemma SplitNetlocAt(host: string, tail: string)
    requires forall k :: 0 <= k < |host| ==> !IsNetlocEnd(host[k])
    requires tail == [] || IsNetlocEnd(tail[0])
    ensures SplitNetloc("//" + host + tail) == (host, tail)
  {
    var after := "//" + host + tail;
    assert StartsWith(after, "//");
    FirstNetlocEndAt(after, 2, 2 + |host|);
    assert after[2..2 + |host|] == host;
    assert after[2 + |host|..] == tail;
  }

  lemma CleanNoop(url: string)
    requires url != [] && url[0] > ' ' && NoUnsafe(url)
    ensures Clean(url) == url
  {
    RemoveUnsafeNoop(url);
  }

  lemma AuthorityIsSafe(scheme: string, host: string, tail: string)
    requires forall k :: 0 <= k < |scheme| ==> IsSchemeChar(scheme[k])
    requires NoUnsafe(host) && NoUnsafe(tail)
    ensures NoUnsafe(scheme + "://" + host + tail)
  {
    SchemeIsSafe(scheme);
    NoUnsafeConcat(scheme + "://", host);
    NoUnsafeConcat(scheme + "://" + host, tail);
  }

  /** For `scheme://host` followed by a path, query or fragment, `urlparse`
      finds the host as the network location. */
  lemma ParseAuthority(url: string, scheme: string, host: string, tail: string)
    requires url == scheme + "://" + host + tail
    requires |scheme| > 0 && IsAsciiLetter(scheme[0])
    requires forall k :: 0 <= k < |scheme| ==> IsSchemeChar(scheme[k])
    requires forall k :: 0 <= k < |host| ==> !IsNetlocEnd(host[k])
    requires tail == [] || IsNetlocEnd(tail[0])
    requires NoUnsafe(host) && NoUnsafe(tail)
    ensures Parse(url).netloc == host
  {
    var after := "//" + host + tail;
    assert url == scheme + ":" + after;
    AuthorityIsSafe(scheme, host, tail);
    CleanNoop(url);
    SplitSchemeAt(scheme, after);
    SplitNetlocAt(host, tail);
  }
}
