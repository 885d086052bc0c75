/** Platform identification: an ordered rule table matched against the
    lower-cased host of the URL, the first rule with a matching keyword
    winning. */
module Platform {
  import opened Wrappers
  import opened Text
  import Url

  /** The fetch strategy a platform recommends. */
  datatype Strategy = Jina | Bs4 | Playwright | Skip

  /** One row of the table: the platform name, the host keywords, whether
      the platform needs a login and the recommended strategy. */
  datatype Rule = Rule(name: string, keywords: seq<string>, needsLogin: bool, strategy: Strategy)

  /** What `identify_platform` reports. */
  datatype PlatformInfo = PlatformInfo(name: string, domain: string, needsLogin: bool, strategy: Strategy)

  const Rules: seq<Rule> := [
    Rule("PTT", ["ptt.cc"], false, Jina),
    Rule("Medium", ["medium.com"], false, Jina),
    Rule("痞客邦", ["pixnet.net"], false, Jina),
    Rule("方格子", ["vocus.cc"], false, Jina),
    Rule("LINE TODAY", ["today.line.me"], false, Jina),
    Rule("獸醫學會", ["vetmed.org.tw", "tava.org.tw", "avat.org.tw"], false, Bs4),
    Rule("新聞網站", ["udn.com", "ltn.com.tw", "ettoday.net", "setn.com",
                   "chinatimes.com", "tvbs.com.tw", "cna.com.tw"], false, Jina),
    Rule("部落格", ["blogspot.com", "wordpress.com", "blog."], false, Jina),
    Rule("Facebook", ["facebook.com", "fb.com", "fb.watch"], true, Skip),
    Rule("Instagram", ["instagram.com"], true, Skip),
    Rule("微信公眾號", ["mp.weixin.qq.com"], true, Playwright),
    Rule("小紅書", ["xiaohongshu.com", "xhslink.com"], true, Playwright)
  ]

  /** The name reported for a host that no rule matches. */
  const OtherName: string := "其他"

  /** Some keyword of the rule occurs in the host. */
  predicate Matches(rule: Rule, domain: string) {
    exists k :: 0 <= k < |rule.keywords| && Contains(domain, rule.keywords[k])
  }

  /** The inner keyword loop: does any of `kws` occur in the host? */
  function AnyKeyword(kws: seq<string>, domain: string): (b: bool)
    ensures b <==> exists k :: 0 <= k < |kws| && Contains(domain, kws[k])
  {
    if kws == [] then false
    else Contains(domain, kws[0]) || AnyKeyword(kws[1..], domain)
  }

  /** The outer rule loop: the index of the first rule that matches. */
  function FirstMatch(rules: seq<Rule>, domain: string): (r: Option<nat>)
    ensures r.Some? ==> r.value < |rules| && Matches(rules[r.value], domain)
    ensures r.Some? ==> forall j :: 0 <= j < r.value ==> !Matches(rules[j], domain)
    ensures r.None? <==> forall j :: 0 <= j < |rules| ==> !Matches(rules[j], domain)
  {
    if rules == [] then None
    else if AnyKeyword(rules[0].keywords, domain) then Some(0)
    else
      match FirstMatch(rules[1..], domain)
      case None => None
      case Some(i) => Some(i + 1)
  }

  /** The platform of an already lower-cased host under a rule table. */
  function ClassifyBy(rules: seq<Rule>, domain: string): (r: PlatformInfo)
    ensures r.domain == domain
    ensures forall i :: 0 <= i < |rules| && Matches(rules[i], domain)
              && (forall j :: 0 <= j < i ==> !Matches(rules[j], domain))
              ==> r == PlatformInfo(rules[i].name, domain, rules[i].needsLogin, rules[i].strategy)
    ensures (forall i :: 0 <= i < |rules| ==> !Matches(rules[i], domain))
              ==> r == PlatformInfo(OtherName, domain, false, Jina)
  {
    match FirstMatch(rules, domain)
    case None => PlatformInfo(OtherName, domain, false, Jina)
    case Some(i) => PlatformInfo(rules[i].name, domain, rules[i].needsLogin, rules[i].strategy)
  }

  /** The platform of an already lower-cased host. */
  function Classify(domain: string): PlatformInfo {
    ClassifyBy(Rules, domain)
  }

  /** The host as `identify_platform` reads it: the network location, lower-cased. */
  function Domain(url: string): string {
    AsciiLower(Url.Parse(url).netloc)
  }

  /** `identify_platform`. */
  function IdentifyPlatform(url: string): (r: PlatformInfo)
    ensures r.domain == Domain(url)
  {
    Classify(Domain(url))
  }

  // ---------------------------------------------------------------
  // Lemmas
  // ---------------------------------------------------------------

  /** A keyword occurring at some position is contained. */
  lemma {:induction false} ContainsAt(s: string, i: nat, sub: string)
    requires i + |sub| <= |s| && s[i..i + |sub|] == sub
    ensures Contains(s, sub)
  {
    if i > 0 {
      assert s[1..][i - 1..i - 1 + |sub|] == sub;
      ContainsAt(s[1..], i - 1, sub);
    }
  }

  /** The login flag and the strategy agree throughout the table and the
      default: a platform needs a login exactly when it is skipped or needs a
      browser. */
  lemma LoginMeansSkipOrBrowser(url: string)
    ensures IdentifyPlatform(url).needsLogin
            <==> IdentifyPlatform(url).strategy == Skip || IdentifyPlatform(url).strategy == Playwright
  {
    TableConsistent();
    ClassifyConsistent(Rules, Domain(url));
  }

  /** A table whose rules all keep the login flag and the strategy in step
      classifies every host in step too. */
  lemma ClassifyConsistent(rules: seq<Rule>, domain: string)
    requires forall j :: 0 <= j < |rules| ==> LoginConsistent(rules[j])
    ensures var r := ClassifyBy(rules, domain);
            r.needsLogin <==> r.strategy == Skip || r.strategy == Playwright
  {
  }

  predicate LoginConsistent(rule: Rule) {
    rule.needsLogin <==> rule.strategy == Skip || rule.strategy == Playwright
  }

  lemma TableConsistent()
    ensures forall j :: 0 <= j < |Rules| ==> LoginConsistent(Rules[j])
  {
  }

  /** A host containing "ptt.cc" is PTT, fetched through the reader first. */
  lemma PttIsReader(url: string)
    requires Contains(Domain(url), "ptt.cc")
    ensures IdentifyPlatform(url) == PlatformInfo("PTT", Domain(url), false, Jina)
  {
    assert Matches(Rules[0], Domain(url)) by {
      assert Rules[0].keywords[0] == "ptt.cc";
    }
  }

  /** Any URL on the PTT web host is identified as PTT, with the reader
      strategy and no login. */
  lemma PttWebUrl(tail: string)
    requires tail == [] || Url.IsNetlocEnd(tail[0])
    requires Url.NoUnsafe(tail)
    ensures IdentifyPlatform("https://www.ptt.cc" + tail) == PlatformInfo("PTT", "www.ptt.cc", false, Jina)
  {
    var host := "www.ptt.cc";
    var url := "https://www.ptt.cc" + tail;
    assert url == "https" + "://" + host + tail;
    assert Url.IsAsciiLetter("https"[0]);
    assert forall k :: 0 <= k < 5 ==> Url.IsSchemeChar("https"[k]);
    assert forall k :: 0 <= k < |host| ==> !Url.IsNetlocEnd(host[k]);
    assert Url.NoUnsafe(host);
    Url.ParseAuthority(url, "https", host, tail);
    PttHost();
    PttIsReader(url);
  }

  lemma PttHost()
    ensures AsciiLower("www.ptt.cc") == "www.ptt.cc"
    ensures Contains("www.ptt.cc", "ptt.cc")
  {
    AsciiLowerOfLower("www.ptt.cc");
    PttHostContains();
  }

  lemma PttHostContains()
    ensures Contains("www.ptt.cc", "ptt.cc")
  {
    var host := "www.ptt.cc";
    assert host[4..10] == "ptt.cc";
    ContainsAt(host, 4, "ptt.cc");
  }

  /** A host matching no keyword is reported as "其他", fetched through the
      reader, with no login. */
  lemma UnknownIsOther(url: string)
    requires forall i :: 0 <= i < |Rules| ==> !Matches(Rules[i], Domain(url))
    ensures IdentifyPlatform(url) == PlatformInfo(OtherName, Domain(url), false, Jina)
  {
  }
}
