/** The shared-link classifier, `detectPlatform`. The whole input is
    lower-cased, split into scheme, host, path and query (after RFC 3986,
    sections 3 and 3.2.2, for the `http` and `https` schemes), and matched
    against an ordered list of rules, each a (domain, path test, platform)
    triple; the first rule that applies decides, and a string no rule
    accepts, URL or not, is `unknown`. A host matches a domain only when it
    is the domain or ends with `.` followed by the domain. */
module PlatformDetection {
  import opened Text

  /** The five tags the classifier returns. */
  datatype Platform = ICloud | Dropbox | GPhotos | GDrive | Unknown

  // ---------------------------------------------------------------------
  // Splitting a URL

  /** The parts of a URL the rules look at. `query` is the text between
      `?` and `#`, empty when there is none. */
  datatype Url = Url(scheme: string, host: string, path: string, query: string)

  /** The characters that end the authority, and those that end the path. */
  const AUTHORITY_END: set<char> := {'/', '?', '#'}
  const PATH_END: set<char> := {'?', '#'}

  /** `host` is written in `authority` from index `start` on, where `start`
      follows the last `@` (or is 0 when there is none), and it runs up to a
      `:` or the end. */
  predicate HostAt(authority: string, start: nat, host: string) {
    && start + |host| <= |authority|
    && authority[start..start + |host|] == host
    && (start == 0 || authority[start - 1] == '@')
    && '@' !in authority[start..]
    && ':' !in host
    && (start + |host| == |authority| || authority[start + |host|] == ':')
  }

  /** The host of an authority `userinfo@host:port`: what follows the last
      `@` (all of it when there is none), up to the first `:` after that. */
  function HostOf(authority: string): (host: string)
    ensures exists start :: HostAt(authority, start, host)
    ensures '@' !in host && ':' !in host
    ensures |host| <= |authority|
    ensures '@' !in authority && ':' !in authority ==> host == authority
  {
    var at := LastIndexOf(authority, '@');
    var hostPort := authority[at + 1..];
    var host := hostPort[..IndexOfAny(hostPort, {':'})];
    assert HostAt(authority, at + 1, host) by {
      assert authority[at + 1..at + 1 + |host|] == host;
    }
    host
  }

  /** At most one host is written in an authority. */
  lemma HostAtUnique(authority: string, s1: nat, h1: string, s2: nat, h2: string)
    requires HostAt(authority, s1, h1) && HostAt(authority, s2, h2)
    ensures s1 == s2 && h1 == h2
  {
  }

  /** The host of `user@host:port` is `host`, whatever the userinfo holds. */
  lemma HostOfUserinfo(user: string, host: string, port: string)
    requires '@' !in host && '@' !in port && ':' !in host
    requires port == [] || port[0] == ':'
    ensures HostOf(user + "@" + host + port) == host
  {
    var a := user + "@" + host + port;
    var start := |user| + 1;
    assert a[start..] == host + port;
    assert a[start..start + |host|] == host;
    assert HostAt(a, start, host);
    var s :| HostAt(a, s, HostOf(a));
    HostAtUnique(a, s, HostOf(a), start, host);
  }

  /** The host of `host:port`, with no userinfo, is `host`. */
  lemma HostOfPort(host: string, port: string)
    requires '@' !in host && '@' !in port && ':' !in host
    requires port == [] || port[0] == ':'
    ensures HostOf(host + port) == host
  {
    var a := host + port;
    assert a[0..] == a && a[0..|host|] == host;
    assert HostAt(a, 0, host);
    var s :| HostAt(a, s, HostOf(a));
    HostAtUnique(a, s, HostOf(a), 0, host);
  }

  /** The query of what follows the path: after a leading `?`, up to `#`. */
  function QueryOf(rest: string): (query: string)
    ensures '#' !in query
    ensures rest != [] && rest[0] == '#' ==> query == []
  {
    if rest != [] && rest[0] == '?' then
      var q := rest[1..];
      q[..IndexOfAny(q, {'#'})]
    else []
  }

  /** A host with no delimiter of the authority, no userinfo and no port. */
  predicate PlainHost(host: string) {
    '/' !in host && '?' !in host && '#' !in host && '@' !in host && ':' !in host
  }

  /** A path that is empty or starts with `/`, and stops at `?` and `#`. */
  predicate PlainPath(path: string) {
    (path == [] || path[0] == '/') && '?' !in path && '#' !in path
  }

  /** A URL with an `http` or `https` scheme whose parts hold no delimiter
      of the part after them. */
  predicate WellFormed(u: Url) {
    (u.scheme == "https" || u.scheme == "http") && PlainHost(u.host) && PlainPath(u.path) && '#' !in u.query
  }

  /** The scheme of `s` when it starts with `https://` or `http://`, else empty. */
  function SchemeOf(s: string): (scheme: string)
    ensures scheme == "https" || scheme == "http" || scheme == []
    ensures scheme != [] <==> StartsWith(s, "https://") || StartsWith(s, "http://")
    ensures scheme != [] ==> StartsWith(s, scheme + "://")
  {
    if StartsWith(s, "https://") then "https" else if StartsWith(s, "http://") then "http" else []
  }

  /** The host, path and query of what follows `scheme://`: the authority
      runs to the first `/`, `?` or `#`, the path from there to the first
      `?` or `#`. */
  function PartsOf(scheme: string, rest: string): (u: Url)
    ensures u.scheme == scheme
    ensures PlainHost(u.host) && PlainPath(u.path) && '#' !in u.query
  {
    var a := IndexOfAny(rest, AUTHORITY_END);
    var authority := rest[..a];
    assert '/' !in authority && '?' !in authority && '#' !in authority;
    var tail := rest[a..];
    var p := IndexOfAny(tail, PATH_END);
    var path := tail[..p];
    assert path != [] ==> path[0] == tail[0] && tail[0] !in PATH_END;
    Url(scheme, HostOf(authority), path, QueryOf(tail[p..]))
  }

  /** The scheme, host, path and query split the rules need, for the two
      schemes a shared link can have; `None` for anything else, the empty
      string and plain text included. It is no full URL parser: `\` is not
      read as `/`, and dot segments stay in the path. */
  function ParseUrl(s: string): (r: Option<Url>)
    ensures r.Some? <==> StartsWith(s, "https://") || StartsWith(s, "http://")
    ensures r.Some? ==> WellFormed(r.value) && StartsWith(s, r.value.scheme + "://")
  {
    var scheme := SchemeOf(s);
    if scheme == [] then None else Some(PartsOf(scheme, s[|scheme| + 3..]))
  }

  /** The URL `scheme://host path ?query` written out. */
  function Compose(u: Url): string {
    u.scheme + "://" + u.host + u.path + QuerySuffix(u.query)
  }

  /** The query written after the path: `?` and the query, or nothing. */
  function QuerySuffix(query: string): string {
    if query == [] then "" else "?" + query
  }

  /** A fragment written at the end: `#` and the fragment, or nothing. */
  function FragmentSuffix(fragment: string): string {
    if fragment == [] then "" else "#" + fragment
  }

  /** Parsing a written-out URL, with or without a fragment, gives back its
      parts; the fragment is dropped. */
  lemma ParseCompose(u: Url, fragment: string)
    requires WellFormed(u)
    ensures ParseUrl(Compose(u) + FragmentSuffix(fragment)) == Some(u)
  {
    ParseAuthority(u.scheme, u.host, u.path, u.query, fragment);
  }

  /** Parsing `scheme://authority path ?query #fragment`, whose authority
      may carry userinfo and a port, gives the host of the authority and
      the path and query as written. */
  lemma ParseAuthority(scheme: string, authority: string, path: string, query: string, fragment: string)
    requires scheme == "https" || scheme == "http"
    requires '/' !in authority && '?' !in authority && '#' !in authority
    requires PlainPath(path) && '#' !in query
    ensures ParseUrl(scheme + "://" + authority + path + QuerySuffix(query) + FragmentSuffix(fragment))
      == Some(Url(scheme, HostOf(authority), path, query))
  {
    var rest := authority + path + QuerySuffix(query) + FragmentSuffix(fragment);
    WrittenAfterScheme(scheme, authority, path, QuerySuffix(query), FragmentSuffix(fragment));
    SchemeOfWritten(scheme, rest);
    PartsOfAuthority(scheme, authority, path, query, FragmentSuffix(fragment));
  }

  lemma WrittenAfterScheme(scheme: string, authority: string, path: string, q: string, f: string)
    ensures scheme + "://" + authority + path + q + f == scheme + "://" + (authority + path + q + f)
  {
    ConcatAssoc(scheme + "://" + authority + path, q, f);
    ConcatAssoc(scheme + "://" + authority, path, q + f);
    ConcatAssoc(scheme + "://", authority, path + (q + f));
    ConcatAssoc(authority, path, q + f);
    ConcatAssoc(authority + path, q, f);
  }

  lemma SchemeOfWritten(scheme: string, rest: string)
    requires scheme == "https" || scheme == "http"
    ensures SchemeOf(scheme + "://" + rest) == scheme
    ensures (scheme + "://" + rest)[|scheme| + 3..] == rest
  {
    var s := scheme + "://" + rest;
    assert s[..|scheme| + 3] == scheme + "://";
    if scheme == "http" {
      assert s[4] == ':';
    }
  }

  lemma PartsOfAuthority(scheme: string, authority: string, path: string, query: string, end: string)
    requires '/' !in authority && '?' !in authority && '#' !in authority
    requires PlainPath(path) && '#' !in query && (end == [] || end[0] == '#')
    ensures PartsOf(scheme, authority + path + QuerySuffix(query) + end)
      == Url(scheme, HostOf(authority), path, query)
  {
    var q := QuerySuffix(query) + end;
    assert q != [] ==> q[0] in PATH_END;
    var tail := path + q;
    ConcatAssoc(authority + path, QuerySuffix(query), end);
    ConcatAssoc(authority, path, q);
    FirstStop(authority, tail, AUTHORITY_END);
    FirstStop(path, q, PATH_END);
    QueryOfWritten(query, end);
  }

  /** A search for `stops` in `a + b`, where `a` holds none of them and `b`
      is empty or starts with one, stops where `b` starts. */
  lemma FirstStop(a: string, b: string, stops: set<char>)
    requires forall c :: c in stops ==> c !in a
    requires b != [] ==> b[0] in stops
    ensures IndexOfAny(a + b, stops) == |a|
    ensures (a + b)[..|a|] == a && (a + b)[|a|..] == b
  {
    IndexOfAnyUnique(a + b, stops, |a|);
  }

  lemma QueryOfWritten(query: string, end: string)
    requires '#' !in query && (end == [] || end[0] == '#')
    ensures QueryOf(QuerySuffix(query) + end) == query
  {
    if query != [] {
      var q := QuerySuffix(query) + end;
      assert q[1..] == query + end;
      IndexOfAnyUnique(query + end, {'#'}, |query|);
      assert (query + end)[..|query|] == query;
    }
  }

  // ---------------------------------------------------------------------
  // Query parameters

  /** `s.split(c)`: the pieces between occurrences of `c`. */
  function Split(s: string, c: char): (parts: seq<string>)
    ensures |parts| >= 1
    ensures forall i :: 0 <= i < |parts| ==> c !in parts[i]
    ensures Join(parts, c) == s
    decreases |s|
  {
    var k := IndexOfAny(s, {c});
    if k == |s| then [s]
    else
      var rest := Split(s[k + 1..], c);
      assert s == s[..k] + [c] + s[k + 1..];
      [s[..k]] + rest
  }

  /** `parts.join(c)`. */
  function Join(parts: seq<string>, c: char): string
    requires |parts| >= 1
  {
    if |parts| == 1 then parts[0] else parts[0] + [c] + Join(parts[1..], c)
  }

  /** The name of a `name=value` pair (all of it when there is no `=`). */
  function KeyOf(pair: string): (key: string)
    ensures '=' !in key && StartsWith(pair, key)
    ensures |key| == |pair| || pair[|key|] == '='
  {
    pair[..IndexOfAny(pair, {'='})]
  }

  /** `new URLSearchParams(query).has(name)`. */
  predicate HasParam(query: string, name: string): (has: bool)
    ensures has ==> '=' !in name && '&' !in name
  {
    exists pair :: pair in Split(query, '&') && KeyOf(pair) == name
  }

  /** A query holding the one pair `name=value` has the parameter `name`. */
  lemma HasSingleParam(name: string, value: string)
    requires '&' !in name && '&' !in value && '=' !in name
    ensures HasParam(name + "=" + value, name)
  {
    var q := name + "=" + value;
    IndexOfAnyUnique(q, {'&'}, |q|);
    assert Split(q, '&') == [q];
    IndexOfAnyUnique(q, {'='}, |name|);
    assert q[..|name|] == name;
    assert q in Split(q, '&') && KeyOf(q) == name;
  }

  // ---------------------------------------------------------------------
  // Domains and rules

  /** The domain-boundary check: `host` is `domain` or a subdomain of it. */
  predicate MatchesDomain(host: string, domain: string): (m: bool)
    ensures m ==> EndsWith(host, domain)
  {
    DotSuffix(host, domain);
    host == domain || EndsWith(host, "." + domain)
  }

  /** A host ending with `.` and a domain ends with the domain. */
  lemma DotSuffix(host: string, domain: string)
    ensures EndsWith(host, "." + domain) ==> EndsWith(host, domain)
  {
    if EndsWith(host, "." + domain) {
      assert host[|host| - |domain|..] == host[|host| - |domain| - 1..][1..];
    }
  }

  datatype PathTest =
    | AnyPath
    | PathPrefix(prefix: string)
    | PathPrefixWithParam(prefix: string, param: string)

  datatype Rule = Rule(domain: string, test: PathTest, tag: Platform)

  predicate Passes(test: PathTest, u: Url) {
    match test
    case AnyPath => true
    case PathPrefix(p) => StartsWith(u.path, p)
    case PathPrefixWithParam(p, name) => StartsWith(u.path, p) && HasParam(u.query, name)
  }

  predicate Applies(rule: Rule, u: Url) {
    MatchesDomain(u.host, rule.domain) && Passes(rule.test, u)
  }

  /** The rule list, in the order the classifier tries it. */
  const RULES: seq<Rule> := [
    Rule("icloud.com", PathPrefix("/photos"), ICloud),
    Rule("dropbox.com", PathPrefix("/s/"), Dropbox),
    Rule("dropbox.com", PathPrefix("/scl/fi/"), Dropbox),
    Rule("dropbox.com", PathPrefix("/sh/"), Dropbox),
    Rule("photos.app.goo.gl", AnyPath, GPhotos),
    Rule("photos.google.com", PathPrefix("/share"), GPhotos),
    Rule("drive.google.com", PathPrefix("/file/d/"), GDrive),
    Rule("drive.google.com", PathPrefixWithParam("/open", "id"), GDrive),
    Rule("docs.google.com", PathPrefix("/file/d/"), GDrive)
  ]

  /** The index of the first rule that applies to `u`, `|rules|` when none does. */
  function FirstApplying(rules: seq<Rule>, u: Url): (k: nat)
    ensures k <= |rules|
    ensures forall j :: 0 <= j < k ==> !Applies(rules[j], u)
    ensures k < |rules| ==> Applies(rules[k], u)
  {
    if rules == [] then 0
    else if Applies(rules[0], u) then 0
    else 1 + FirstApplying(rules[1..], u)
  }

  /** The tag of the first rule that applies, `Unknown` when none does. */
  function FirstMatch(rules: seq<Rule>, u: Url): Platform {
    var k := FirstApplying(rules, u);
    if k == |rules| then Unknown else rules[k].tag
  }

  /** `detectPlatform(url)`: text that is no `http(s)` URL after
      lower-casing is `Unknown`, and a URL gets the tag whose description
      (below) it meets, `Unknown` when it meets none. By ExactlyOneTag no
      other tag meets it. */
  function DetectPlatform(url: string): (p: Platform)
    ensures ParseUrl(ToLower(url)).None? ==> p == Unknown
    ensures ParseUrl(ToLower(url)).Some? ==> Recognises(ParseUrl(ToLower(url)).value, p)
  {
    match ParseUrl(ToLower(url))
    case None => Unknown
    case Some(u) =>
      RulesRecognise(u);
      FirstMatch(RULES, u)
  }

  // ---------------------------------------------------------------------
  // What each tag means, stated without the rule list

  predicate IsICloudLink(u: Url) {
    MatchesDomain(u.host, "icloud.com") && StartsWith(u.path, "/photos")
  }

  predicate IsDropboxLink(u: Url) {
    && MatchesDomain(u.host, "dropbox.com")
    && (StartsWith(u.path, "/s/") || StartsWith(u.path, "/scl/fi/") || StartsWith(u.path, "/sh/"))
  }

  predicate IsGPhotosLink(u: Url) {
    || MatchesDomain(u.host, "photos.app.goo.gl")
    || (MatchesDomain(u.host, "photos.google.com") && StartsWith(u.path, "/share"))
  }

  predicate IsGDriveLink(u: Url) {
    || (MatchesDomain(u.host, "drive.google.com")
        && (StartsWith(u.path, "/file/d/") || (StartsWith(u.path, "/open") && HasParam(u.query, "id"))))
    || (MatchesDomain(u.host, "docs.google.com") && StartsWith(u.path, "/file/d/"))
  }

  /** `u` is a link of platform `t`; `Unknown` describes the links of no platform. */
  predicate Recognises(u: Url, t: Platform) {
    match t
    case ICloud => IsICloudLink(u)
    case Dropbox => IsDropboxLink(u)
    case GPhotos => IsGPhotosLink(u)
    case GDrive => IsGDriveLink(u)
    case Unknown => !IsICloudLink(u) && !IsDropboxLink(u) && !IsGPhotosLink(u) && !IsGDriveLink(u)
  }

  // ---------------------------------------------------------------------
  // The domain-boundary check

  /** A host matching a domain ends with it, character for character. */
  lemma MatchedSuffix(host: string, domain: string, k: nat)
    requires MatchesDomain(host, domain) && k < |domain|
    ensures k < |host| && host[|host| - 1 - k] == domain[|domain| - 1 - k]
  {
    if host != domain {
      var d := "." + domain;
      assert host[|host| - |d|..] == d;
      assert host[|host| - 1 - k] == host[|host| - |d|..][|d| - 1 - k];
    }
  }

  /** Two domains that differ `k` characters from the end have no host in common. */
  lemma DomainsApart(host: string, d1: string, d2: string, k: nat)
    requires k < |d1| && k < |d2| && d1[|d1| - 1 - k] != d2[|d2| - 1 - k]
    ensures !(MatchesDomain(host, d1) && MatchesDomain(host, d2))
  {
    if MatchesDomain(host, d1) && MatchesDomain(host, d2) {
      MatchedSuffix(host, d1, k);
      MatchedSuffix(host, d2, k);
    }
  }

  /** A host matches a domain exactly when it is the domain, or it ends with
      the domain and the character just before it is a `.`. */
  lemma DomainBoundary(host: string, domain: string)
    ensures MatchesDomain(host, domain) <==>
      host == domain
      || (|host| > |domain| && EndsWith(host, domain) && host[|host| - |domain| - 1] == '.')
  {
    var n, m := |host|, |domain|;
    if n > m && EndsWith(host, domain) && host[n - m - 1] == '.' {
      assert host[n - m - 1..] == [host[n - m - 1]] + host[n - m..];
    }
    if n > m && EndsWith(host, "." + domain) {
      assert host[n - m..] == host[n - m - 1..][1..];
    }
  }

  /** Substring containment is not enough: a name glued onto a domain
      without a `.` (`fake` + `dropbox.com`) does not match it. */
  lemma GluedLabelRejected(sub: string, domain: string)
    requires sub != [] && sub[|sub| - 1] != '.'
    ensures !MatchesDomain(sub + domain, domain)
  {
    DomainBoundary(sub + domain, domain);
    assert (sub + domain)[|sub| - 1] == sub[|sub| - 1];
  }

  /** A host ending with `d1` matches no domain `d2` that differs from
      `d1` `k` characters from the end. */
  lemma SuffixDecides(host: string, d1: string, d2: string, k: nat)
    requires EndsWith(host, d1) && k < |d1| && k < |d2| && d1[|d1| - 1 - k] != d2[|d2| - 1 - k]
    ensures !MatchesDomain(host, d2)
  {
    assert host[|host| - 1 - k] == d1[|d1| - 1 - k] by {
      assert host[|host| - 1 - k] == host[|host| - |d1|..][|d1| - 1 - k];
    }
    if MatchesDomain(host, d2) {
      MatchedSuffix(host, d2, k);
    }
  }

  /** A name followed by `.` and the domain is a subdomain, and matches. */
  lemma SubdomainAccepted(sub: string, domain: string)
    ensures MatchesDomain(sub + "." + domain, domain)
  {
    var host := sub + "." + domain;
    assert host[|host| - |"." + domain|..] == "." + domain;
  }

  // ---------------------------------------------------------------------
  // First match is the only match

  /** No link belongs to two platforms: the domains of different platforms
      differ at some character counted from the end. */
  lemma LinksExclusive(u: Url)
    ensures !(IsICloudLink(u) && IsDropboxLink(u))
    ensures !(IsICloudLink(u) && IsGPhotosLink(u))
    ensures !(IsICloudLink(u) && IsGDriveLink(u))
    ensures !(IsDropboxLink(u) && IsGPhotosLink(u))
    ensures !(IsDropboxLink(u) && IsGDriveLink(u))
    ensures !(IsGPhotosLink(u) && IsGDriveLink(u))
  {
    var h := u.host;
    LastLetters();
    FifthLetters();
    GoogleLetters();
    DomainsApart(h, "icloud.com", "dropbox.com", 4);
    DomainsApart(h, "icloud.com", "photos.app.goo.gl", 0);
    DomainsApart(h, "icloud.com", "photos.google.com", 4);
    DomainsApart(h, "icloud.com", "drive.google.com", 4);
    DomainsApart(h, "icloud.com", "docs.google.com", 4);
    DomainsApart(h, "dropbox.com", "photos.app.goo.gl", 0);
    DomainsApart(h, "dropbox.com", "photos.google.com", 4);
    DomainsApart(h, "dropbox.com", "drive.google.com", 4);
    DomainsApart(h, "dropbox.com", "docs.google.com", 4);
    DomainsApart(h, "photos.app.goo.gl", "drive.google.com", 0);
    DomainsApart(h, "photos.app.goo.gl", "docs.google.com", 0);
    DomainsApart(h, "photos.google.com", "drive.google.com", 11);
    DomainsApart(h, "photos.google.com", "docs.google.com", 12);
  }

  /** The rule list decides for every link the platform that the
      descriptions above give it, so trying the rules in order and asking
      which description holds agree. */
  lemma RulesRecognise(u: Url)
    ensures Recognises(u, FirstMatch(RULES, u))
  {
    LinksExclusive(u);
    var k := FirstApplying(RULES, u);
    if k < |RULES| {
      assert Applies(RULES[k], u);
    } else {
      assert forall j :: 0 <= j < |RULES| ==> !Applies(RULES[j], u);
      assert !Applies(RULES[0], u) && !Applies(RULES[1], u) && !Applies(RULES[2], u);
      assert !Applies(RULES[3], u) && !Applies(RULES[4], u) && !Applies(RULES[5], u);
      assert !Applies(RULES[6], u) && !Applies(RULES[7], u) && !Applies(RULES[8], u);
    }
  }

  /** Every link is recognised as exactly one tag. */
  lemma ExactlyOneTag(u: Url, t: Platform, t': Platform)
    requires Recognises(u, t) && Recognises(u, t')
    ensures t == t'
  {
    LinksExclusive(u);
  }

  /** What `detectPlatform` returns, stated through the parse of the
      lower-cased input and the descriptions: non-URLs are `Unknown`, and a
      URL gets the one tag whose description it meets. */
  lemma DetectPlatformMeaning(url: string, t: Platform)
    ensures DetectPlatform(url) == t <==>
      match ParseUrl(ToLower(url))
      case None => t == Unknown
      case Some(u) => Recognises(u, t)
  {
    match ParseUrl(ToLower(url))
    case None =>
    case Some(u) =>
      RulesRecognise(u);
      if Recognises(u, t) {
        ExactlyOneTag(u, t, FirstMatch(RULES, u));
      }
  }

  // ---------------------------------------------------------------------
  // Case insensitivity

  /** Inputs that agree up to case are classified alike. */
  lemma CaseInsensitive(a: string, b: string)
    requires ToLower(a) == ToLower(b)
    ensures DetectPlatform(a) == DetectPlatform(b)
  {
  }

  /** Upper-casing or lower-casing the input does not change its tag. */
  lemma DetectIgnoresCase(url: string)
    ensures DetectPlatform(ToLower(url)) == DetectPlatform(url)
    ensures DetectPlatform(ToUpper(url)) == DetectPlatform(url)
  {
    ToLowerIdempotent(url);
    ToLowerOfToUpper(url);
  }

  // The characters, counted from the end, at which the rule domains differ.

  lemma LastLetters()
    ensures "icloud.com"[9] == 'm' && "dropbox.com"[10] == 'm' && "photos.app.goo.gl"[16] == 'l'
    ensures "photos.google.com"[16] == 'm' && "drive.google.com"[15] == 'm' && "docs.google.com"[14] == 'm'
  {
  }

  lemma FifthLetters()
    ensures "icloud.com"[5] == 'd' && "dropbox.com"[6] == 'x' && "photos.google.com"[12] == 'e'
    ensures "drive.google.com"[11] == 'e' && "docs.google.com"[10] == 'e'
  {
  }

  lemma GoogleLetters()
    ensures "photos.google.com"[5] == 's' && "drive.google.com"[4] == 'e' && "docs.google.com"[3] == 's'
    ensures "photos.google.com"[4] == 'o' && "docs.google.com"[2] == 'c'
  {
  }

  /** A host made by gluing a name onto one of the rule domains without a
      `.` (`fakedropbox.com`, `not-icloud.com`) is no platform's link,
      whatever its path. */
  lemma GluedHostUnrecognised(u: Url, sub: string, domain: string)
    requires domain in RULE_DOMAINS
    requires sub != [] && sub[|sub| - 1] != '.'
    requires u.host == sub + domain
    ensures Recognises(u, Unknown)
  {
    var h := u.host;
    GluedLabelRejected(sub, domain);
    assert EndsWith(h, domain) by {
      assert h[|h| - |domain|..] == domain;
    }
    if domain == "icloud.com" {
      OnlyICloud(h);
    } else if domain == "dropbox.com" {
      OnlyDropbox(h);
    } else if domain == "photos.app.goo.gl" {
      OnlyGooGl(h);
    } else if domain == "photos.google.com" {
      OnlyPhotosGoogle(h);
    } else if domain == "drive.google.com" {
      OnlyDriveGoogle(h);
    } else {
      OnlyDocsGoogle(h);
    }
  }

  /** A host ending with `icloud.com` matches none of the other rule domains. */
  lemma OnlyICloud(h: string)
    requires EndsWith(h, "icloud.com")
    ensures !MatchesDomain(h, "dropbox.com") && !MatchesDomain(h, "photos.app.goo.gl")
    ensures !MatchesDomain(h, "photos.google.com") && !MatchesDomain(h, "drive.google.com") && !MatchesDomain(h, "docs.google.com")
  {
    LastLetters();
    FifthLetters();
    SuffixDecides(h, "icloud.com", "dropbox.com", 4);
    SuffixDecides(h, "icloud.com", "photos.app.goo.gl", 0);
    SuffixDecides(h, "icloud.com", "photos.google.com", 4);
    SuffixDecides(h, "icloud.com", "drive.google.com", 4);
    SuffixDecides(h, "icloud.com", "docs.google.com", 4);
  }

  /** A host ending with `dropbox.com` matches none of the other rule domains. */
  lemma OnlyDropbox(h: string)
    requires EndsWith(h, "dropbox.com")
    ensures !MatchesDomain(h, "icloud.com") && !MatchesDomain(h, "photos.app.goo.gl")
    ensures !MatchesDomain(h, "photos.google.com") && !MatchesDomain(h, "drive.google.com") && !MatchesDomain(h, "docs.google.com")
  {
    LastLetters();
    FifthLetters();
    SuffixDecides(h, "dropbox.com", "icloud.com", 4);
    SuffixDecides(h, "dropbox.com", "photos.app.goo.gl", 0);
    SuffixDecides(h, "dropbox.com", "photos.google.com", 4);
    SuffixDecides(h, "dropbox.com", "drive.google.com", 4);
    SuffixDecides(h, "dropbox.com", "docs.google.com", 4);
  }

  /** A host ending with `photos.app.goo.gl` matches none of the other rule domains. */
  lemma OnlyGooGl(h: string)
    requires EndsWith(h, "photos.app.goo.gl")
    ensures !MatchesDomain(h, "icloud.com") && !MatchesDomain(h, "dropbox.com")
    ensures !MatchesDomain(h, "photos.google.com") && !MatchesDomain(h, "drive.google.com") && !MatchesDomain(h, "docs.google.com")
  {
    LastLetters();
    SuffixDecides(h, "photos.app.goo.gl", "icloud.com", 0);
    SuffixDecides(h, "photos.app.goo.gl", "dropbox.com", 0);
    SuffixDecides(h, "photos.app.goo.gl", "photos.google.com", 0);
    SuffixDecides(h, "photos.app.goo.gl", "drive.google.com", 0);
    SuffixDecides(h, "photos.app.goo.gl", "docs.google.com", 0);
  }

  /** A host ending with `photos.google.com` matches none of the other rule domains. */
  lemma OnlyPhotosGoogle(h: string)
    requires EndsWith(h, "photos.google.com")
    ensures !MatchesDomain(h, "icloud.com") && !MatchesDomain(h, "dropbox.com")
    ensures !MatchesDomain(h, "photos.app.goo.gl") && !MatchesDomain(h, "drive.google.com") && !MatchesDomain(h, "docs.google.com")
  {
    LastLetters();
    FifthLetters();
    GoogleLetters();
    SuffixDecides(h, "photos.google.com", "icloud.com", 4);
    SuffixDecides(h, "photos.google.com", "dropbox.com", 4);
    SuffixDecides(h, "photos.google.com", "photos.app.goo.gl", 0);
    SuffixDecides(h, "photos.google.com", "drive.google.com", 11);
    SuffixDecides(h, "photos.google.com", "docs.google.com", 12);
  }

  /** A host ending with `drive.google.com` matches none of the other rule domains. */
  lemma OnlyDriveGoogle(h: string)
    requires EndsWith(h, "drive.google.com")
    ensures !MatchesDomain(h, "icloud.com") && !MatchesDomain(h, "dropbox.com")
    ensures !MatchesDomain(h, "photos.app.goo.gl") && !MatchesDomain(h, "photos.google.com") && !MatchesDomain(h, "docs.google.com")
  {
    LastLetters();
    FifthLetters();
    GoogleLetters();
    SuffixDecides(h, "drive.google.com", "icloud.com", 4);
    SuffixDecides(h, "drive.google.com", "dropbox.com", 4);
    SuffixDecides(h, "drive.google.com", "photos.app.goo.gl", 0);
    SuffixDecides(h, "drive.google.com", "photos.google.com", 11);
    SuffixDecides(h, "drive.google.com", "docs.google.com", 11);
  }

  /** A host ending with `docs.google.com` matches none of the other rule domains. */
  lemma OnlyDocsGoogle(h: string)
    requires EndsWith(h, "docs.google.com")
    ensures !MatchesDomain(h, "icloud.com") && !MatchesDomain(h, "dropbox.com")
    ensures !MatchesDomain(h, "photos.app.goo.gl") && !MatchesDomain(h, "photos.google.com") && !MatchesDomain(h, "drive.google.com")
  {
    LastLetters();
    FifthLetters();
    GoogleLetters();
    SuffixDecides(h, "docs.google.com", "icloud.com", 4);
    SuffixDecides(h, "docs.google.com", "dropbox.com", 4);
    SuffixDecides(h, "docs.google.com", "photos.app.goo.gl", 0);
    SuffixDecides(h, "docs.google.com", "photos.google.com", 12);
    SuffixDecides(h, "docs.google.com", "drive.google.com", 11);
  }

  /** The domains the rules name. */
  const RULE_DOMAINS: set<string> := {
    "icloud.com", "dropbox.com", "photos.app.goo.gl", "photos.google.com",
    "drive.google.com", "docs.google.com"
  }

  /** An input that lower-cases to a written-out URL, with or without a
      fragment, gets the tag whose description that URL meets. */
  lemma DetectWritten(url: string, u: Url, fragment: string, t: Platform)
    requires WellFormed(u) && ToLower(url) == Compose(u) + FragmentSuffix(fragment)
    requires Recognises(u, t)
    ensures DetectPlatform(url) == t
  {
    ParseCompose(u, fragment);
    DetectPlatformMeaning(url, t);
  }

  /** An input that lower-cases to `scheme://authority path ?query #fragment`
      is classified by the host of its authority: userinfo before an `@` and
      a `:port` take no part. */
  lemma DetectAuthority(url: string, scheme: string, authority: string, path: string, query: string,
                        fragment: string, t: Platform)
    requires scheme == "https" || scheme == "http"
    requires '/' !in authority && '?' !in authority && '#' !in authority
    requires PlainPath(path) && '#' !in query
    requires ToLower(url) == scheme + "://" + authority + path + QuerySuffix(query) + FragmentSuffix(fragment)
    requires Recognises(Url(scheme, HostOf(authority), path, query), t)
    ensures DetectPlatform(url) == t
  {
    ParseAuthority(scheme, authority, path, query, fragment);
    DetectPlatformMeaning(url, t);
  }

  /** Every rule domain has at least ten characters, so a shorter host is
      no platform's link. */
  lemma ShortHostUnrecognised(u: Url)
    requires |u.host| < 10
    ensures Recognises(u, Unknown)
  {
  }

  /** Text that does not start with `http://` or `https://`, in any case,
      is `Unknown`. */
  lemma NonUrlUnknown(url: string)
    requires !StartsWith(ToLower(url), "https://") && !StartsWith(ToLower(url), "http://")
    ensures DetectPlatform(url) == Unknown
  {
  }

  /** Lower-casing a written-out URL lower-cases each of its parts. */
  lemma ToLowerWritten(scheme: string, host: string, path: string, query: string, fragment: string)
    ensures ToLower(scheme + "://" + host + path + QuerySuffix(query) + FragmentSuffix(fragment))
      == ToLower(scheme) + "://" + ToLower(host) + ToLower(path)
         + QuerySuffix(ToLower(query)) + FragmentSuffix(ToLower(fragment))
  {
    assert ToLower("://") == "://";
    assert ToLower("?") == "?" && ToLower("#") == "#";
    ToLowerConcat(scheme, "://");
    ToLowerConcat(scheme + "://", host);
    ToLowerConcat(scheme + "://" + host, path);
    ToLowerConcat(scheme + "://" + host + path, QuerySuffix(query));
    ToLowerConcat(scheme + "://" + host + path + QuerySuffix(query), FragmentSuffix(fragment));
    if query != [] {
      ToLowerConcat("?", query);
    }
    if fragment != [] {
      ToLowerConcat("#", fragment);
    }
  }
}
