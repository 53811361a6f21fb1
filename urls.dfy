/**
 * The URL provider resolver: an entity's expanded URL is split into scheme,
 * host, path and query, and a small table of provider rules turns it into a
 * provider-keyed track identifier.
 */
module Urls {
  import opened Wrappers
  import opened Text

  // ---------------------------------------------------------------------------
  // Splitting a URL
  // ---------------------------------------------------------------------------

  /** The parts of an absolute web URL the resolver looks at (a fragment is dropped). */
  datatype Url = Url(scheme: string, host: string, path: string, query: Option<string>)

  predicate IsWebScheme(scheme: string) {
    scheme == "http" || scheme == "https"
  }

  /** The URLs whose written form splits back into the same parts. */
  predicate WellFormed(u: Url) {
    && IsWebScheme(u.scheme)
    && NoneIn(u.host, {'/', '?', '#'})
    && (u.path == [] || u.path[0] == '/')
    && NoneIn(u.path, {'?', '#'})
    && (u.query.Some? ==> NoneIn(u.query.value, {'#'}))
  }

  /** The written form: scheme "://" host path ["?" query]. */
  function Format(u: Url): string {
    u.scheme + "://" + u.host + u.path + QueryPart(u.query)
  }

  /** The written query component: "?" and the query, or nothing. */
  function QueryPart(query: Option<string>): string {
    if query.Some? then "?" + query.value else ""
  }

  /**
   * Splits an http(s) URL: the host runs up to the first '/', '?' or '#', the
   * path up to the first '?' or '#', the query from '?' up to '#'.
   */
  function ParseUrl(s: string): (r: Option<Url>)
    ensures r.Some? ==> WellFormed(r.value)
  {
    var (scheme, rest) := Break(s, {':'});
    if !IsWebScheme(scheme) || |rest| < 3 || rest[..3] != "://" then None
    else
      var (host, tail) := Break(rest[3..], {'/', '?', '#'});
      var (path, tail2) := Break(tail, {'?', '#'});
      var query := if tail2 != [] && tail2[0] == '?' then Some(Break(tail2[1..], {'#'}).0) else None;
      Some(Url(scheme, host, path, query))
  }

  /** Writing a well-formed URL out and splitting it again gives back its parts. */
  lemma ParseFormat(u: Url)
    requires WellFormed(u)
    ensures ParseUrl(Format(u)) == Some(u)
  {
    var q := QueryPart(u.query);
    var rest := "://" + (u.host + (u.path + q));
    SchemeSplit(u, rest);
    HostSplit(u);
    PathSplit(u);
    if u.query.Some? {
      assert q[1..] == u.query.value + [];
      BreakUnique(u.query.value, [], {'#'});
    }
  }

  lemma SchemeSplit(u: Url, rest: string)
    requires WellFormed(u) && rest == "://" + (u.host + (u.path + QueryPart(u.query)))
    ensures Break(Format(u), {':'}) == (u.scheme, rest)
    ensures |rest| >= 3 && rest[..3] == "://" && rest[3..] == u.host + (u.path + QueryPart(u.query))
  {
    FormatShape(u);
    assert NoneIn(u.scheme, {':'});
    BreakUnique(u.scheme, rest, {':'});
    SeparatorDrop(u.host + (u.path + QueryPart(u.query)));
  }

  lemma FormatShape(u: Url)
    ensures Format(u) == u.scheme + ("://" + (u.host + (u.path + QueryPart(u.query))))
  {
    var tail := u.path + QueryPart(u.query);
    assert u.scheme + "://" + u.host + u.path + QueryPart(u.query) == u.scheme + "://" + u.host + tail;
    assert u.scheme + "://" + u.host + tail == u.scheme + "://" + (u.host + tail);
  }

  lemma SeparatorDrop(x: string)
    ensures ("://" + x)[..3] == "://" && ("://" + x)[3..] == x
  {
  }

  lemma HostSplit(u: Url)
    requires WellFormed(u)
    ensures Break(u.host + (u.path + QueryPart(u.query)), {'/', '?', '#'}) == (u.host, u.path + QueryPart(u.query))
  {
    var afterHost := u.path + QueryPart(u.query);
    assert afterHost == [] || afterHost[0] in {'/', '?', '#'};
    BreakUnique(u.host, afterHost, {'/', '?', '#'});
  }

  lemma PathSplit(u: Url)
    requires WellFormed(u)
    ensures Break(u.path + QueryPart(u.query), {'?', '#'}) == (u.path, QueryPart(u.query))
  {
    BreakUnique(u.path, QueryPart(u.query), {'?', '#'});
  }

  /** Conversely, a URL that splits is its written form followed by nothing or a fragment. */
  lemma FormatParse(s: string)
    requires ParseUrl(s).Some?
    ensures var f := Format(ParseUrl(s).value);
      IsPrefix(f, s) && (|f| == |s| || s[|f|] == '#')
  {
    var u := ParseUrl(s).value;
    var (scheme, rest) := Break(s, {':'});
    var (host, tail) := Break(rest[3..], {'/', '?', '#'});
    var (path, tail2) := Break(tail, {'?', '#'});
    var frag := QueryTail(tail2);
    assert u == Url(scheme, host, path, if tail2 != [] && tail2[0] == '?' then Some(Break(tail2[1..], {'#'}).0) else None);
    Reassemble(s, scheme, rest, host, tail, path, tail2, QueryPart(u.query), frag);
    assert Format(u) == scheme + "://" + host + path + QueryPart(u.query);
    PrefixThenFragment(Format(u), frag);
  }

  /** What follows the path: the written query, if any, then the fragment, which is returned. */
  lemma QueryTail(tail2: string) returns (frag: string)
    requires tail2 == [] || tail2[0] in {'?', '#'}
    ensures tail2 == QueryPart(if tail2 != [] && tail2[0] == '?' then Some(Break(tail2[1..], {'#'}).0) else None) + frag
    ensures frag == [] || frag[0] == '#'
  {
    if tail2 != [] && tail2[0] == '?' {
      var (qv, f) := Break(tail2[1..], {'#'});
      assert tail2 == "?" + tail2[1..];
      frag := f;
    } else {
      frag := tail2;
    }
  }

  lemma PrefixThenFragment(f: string, frag: string)
    requires frag == [] || frag[0] == '#'
    ensures IsPrefix(f, f + frag) && (|f| == |f + frag| || (f + frag)[|f|] == '#')
  {
    assert (f + frag)[..|f|] == f;
  }

  lemma Reassemble(s: string, scheme: string, rest: string, host: string, tail: string,
                   path: string, tail2: string, q: string, frag: string)
    requires s == scheme + rest && |rest| >= 3 && rest[..3] == "://"
    requires rest[3..] == host + tail && tail == path + tail2 && tail2 == q + frag
    ensures s == scheme + "://" + host + path + q + frag
  {
    assert rest == "://" + rest[3..];
  }

  // ---------------------------------------------------------------------------
  // The query component (section 3.4 of RFC 3986, as name=value pairs joined by '&')
  // ---------------------------------------------------------------------------

  /** The value of one name=value pair when its name is `name`; a bare name has the empty value. */
  function PairValue(pair: string, name: string): Option<string> {
    var (key, rest) := Break(pair, {'='});
    if key != name then None else Some(if rest == [] then [] else rest[1..])
  }

  /** The value of the first pair named `name`. */
  function Lookup(pairs: seq<string>, name: string): (r: Option<string>)
    ensures r.None? <==> forall k :: 0 <= k < |pairs| ==> PairValue(pairs[k], name).None?
    ensures r.Some? ==> exists k :: 0 <= k < |pairs| && PairValue(pairs[k], name) == r
                          && forall j :: 0 <= j < k ==> PairValue(pairs[j], name).None?
  {
    if pairs == [] then None
    else if PairValue(pairs[0], name).Some? then PairValue(pairs[0], name)
    else
      var r := Lookup(pairs[1..], name);
      LookupStep(pairs, name, r);
      r
  }

  /** A first pair not named `name` leaves the first match in the others the first match overall. */
  lemma LookupStep(pairs: seq<string>, name: string, r: Option<string>)
    requires pairs != [] && PairValue(pairs[0], name).None?
    requires r.None? <==> forall k :: 0 <= k < |pairs[1..]| ==> PairValue(pairs[1..][k], name).None?
    requires r.Some? ==> exists k :: 0 <= k < |pairs[1..]| && PairValue(pairs[1..][k], name) == r
                           && forall j :: 0 <= j < k ==> PairValue(pairs[1..][j], name).None?
    ensures r.None? <==> forall k :: 0 <= k < |pairs| ==> PairValue(pairs[k], name).None?
    ensures r.Some? ==> exists k :: 0 <= k < |pairs| && PairValue(pairs[k], name) == r
                          && forall j :: 0 <= j < k ==> PairValue(pairs[j], name).None?
  {
    assert forall k :: 1 <= k < |pairs| ==> pairs[k] == pairs[1..][k - 1];
    if r.Some? {
      var k :| 0 <= k < |pairs[1..]| && PairValue(pairs[1..][k], name) == r
               && forall j :: 0 <= j < k ==> PairValue(pairs[1..][j], name).None?;
      assert PairValue(pairs[k + 1], name) == r;
      assert forall j :: 0 <= j < k + 1 ==> PairValue(pairs[j], name).None?;
    }
  }

  /**
   * The value of the first `name` parameter of a query string: absent exactly
   * when no '&'-separated pair has that name, else the value of the first that does.
   */
  function QueryParam(query: string, name: string): (r: Option<string>)
    ensures r.None? ==> forall k :: 0 <= k < |Split(query, '&')| ==> PairValue(Split(query, '&')[k], name).None?
    ensures (forall k :: 0 <= k < |Split(query, '&')| ==> PairValue(Split(query, '&')[k], name).None?) ==> r.None?
    ensures r.Some? ==> exists k :: 0 <= k < |Split(query, '&')| && PairValue(Split(query, '&')[k], name) == r
                          && forall j :: 0 <= j < k ==> PairValue(Split(query, '&')[j], name).None?
  {
    var pairs := Split(query, '&');
    Lookup(pairs, name)
  }

  lemma {:induction false} LookupAfter(pre: seq<string>, post: seq<string>, name: string)
    requires forall k :: 0 <= k < |pre| ==> PairValue(pre[k], name).None?
    ensures Lookup(pre + post, name) == Lookup(post, name)
    decreases |pre|
  {
    if pre != [] {
      assert (pre + post)[0] == pre[0];
      assert (pre + post)[1..] == pre[1..] + post;
      LookupAfter(pre[1..], post, name);
    } else {
      assert pre + post == post;
    }
  }

  lemma PairValueOf(name: string, value: string)
    requires '=' !in name
    ensures PairValue(name + "=" + value, name) == Some(value)
  {
    assert NoneIn(name, {'='});
    assert name + "=" + value == name + ("=" + value);
    BreakUnique(name, "=" + value, {'='});
    assert ("=" + value)[1..] == value;
  }

  lemma {:induction false} LookupFirst(pre: seq<string>, name: string, value: string, post: seq<string>)
    requires '=' !in name
    requires forall k :: 0 <= k < |pre| ==> PairValue(pre[k], name).None?
    ensures Lookup(pre + [name + "=" + value] + post, name) == Some(value)
  {
    var pair := name + "=" + value;
    assert pre + [pair] + post == pre + ([pair] + post);
    LookupAfter(pre, [pair] + post, name);
    PairValueOf(name, value);
  }

  /**
   * The parameter `name` of a query is the value of its first pair with that
   * name, whatever pairs come before or after it.
   */
  lemma QueryParamFirst(pre: seq<string>, name: string, value: string, post: seq<string>)
    requires '=' !in name && '&' !in name && '&' !in value
    requires forall k :: 0 <= k < |pre| ==> '&' !in pre[k] && PairValue(pre[k], name).None?
    requires forall k :: 0 <= k < |post| ==> '&' !in post[k]
    ensures QueryParam(Join(pre + [name + "=" + value] + post, '&'), name) == Some(value)
  {
    var pairs := pre + [name + "=" + value] + post;
    NoSeparatorInPairs(pre, name, value, post);
    SplitJoin(pairs, '&');
    LookupFirst(pre, name, value, post);
  }

  lemma NoSeparatorInPairs(pre: seq<string>, name: string, value: string, post: seq<string>)
    requires '&' !in name && '&' !in value
    requires forall k :: 0 <= k < |pre| ==> '&' !in pre[k]
    requires forall k :: 0 <= k < |post| ==> '&' !in post[k]
    ensures forall k :: 0 <= k < |pre + [name + "=" + value] + post| ==> '&' !in (pre + [name + "=" + value] + post)[k]
  {
    var pair := name + "=" + value;
    assert '&' !in pair by {
      assert pair == name + ("=" + value);
    }
  }

  // ---------------------------------------------------------------------------
  // Providers and their rules
  // ---------------------------------------------------------------------------

  datatype Provider = YouTube | Spotify | SoundCloud

  /** The provider's key in a LINK result and its hashtag name. */
  function Name(p: Provider): string {
    match p
    case YouTube => "youtube"
    case Spotify => "spotify"
    case SoundCloud => "soundcloud"
  }

  /** A resolved media identifier, keyed by provider. */
  datatype Track = Track(provider: Provider, id: string)

  /** How a provider's URL carries the identifier. */
  datatype Extractor =
    | QueryParamOn(path: string, param: string)   // the value of query parameter `param` on path `path`
    | PathIds(prefix: seq<string>, count: nat)    // the `count` path segments after the fixed `prefix`, joined by '/'

  datatype Rule = Rule(provider: Provider, hosts: seq<string>, extractor: Extractor)

  const YouTubeHosts: seq<string> := ["www.youtube.com", "youtube.com", "m.youtube.com"]
  const SpotifyHosts: seq<string> := ["open.spotify.com"]
  const SoundCloudHosts: seq<string> := ["soundcloud.com", "www.soundcloud.com"]

  /** watch?v=ID, /track/ID and /user/slug, in this order. */
  const Rules: seq<Rule> := [
    Rule(YouTube, YouTubeHosts, QueryParamOn("/watch", "v")),
    Rule(Spotify, SpotifyHosts, PathIds(["track"], 1)),
    Rule(SoundCloud, SoundCloudHosts, PathIds([], 2))
  ]

  /** The '/'-separated segments of a path ("/a/b" has segments "a" and "b"). */
  function Segments(path: string): seq<string> {
    if path == [] then [] else Split(path[1..], '/')
  }

  /**
   * The identifier an extractor finds in a URL, never empty: the value of the
   * query parameter on the rule's path, or the path segments after the fixed
   * prefix, which the identifier holds joined by '/'.
   */
  function Extract(e: Extractor, u: Url): (r: Option<string>)
    ensures r.Some? ==> r.value != []
    ensures e.QueryParamOn? && r.Some? ==>
      u.path == e.path && u.query.Some? && QueryParam(u.query.value, e.param) == r
    ensures e.PathIds? && r.Some? ==>
      && Segments(u.path) == e.prefix + Split(r.value, '/')
      && |Split(r.value, '/')| == e.count
      && forall i :: 0 <= i < |Split(r.value, '/')| ==> Split(r.value, '/')[i] != []
  {
    match e
    case QueryParamOn(path, param) =>
      if u.path != path || u.query.None? then None
      else
        var v := QueryParam(u.query.value, param);
        if v.Some? && v.value != [] then v else None
    case PathIds(prefix, count) =>
      var segs := Segments(u.path);
      if |segs| == |prefix| + count && segs[..|prefix|] == prefix
         && (forall i :: |prefix| <= i < |segs| ==> segs[i] != [])
         && Join(segs[|prefix|..], '/') != []
      then
        PathIdsSplit(segs, |prefix|);
        Some(Join(segs[|prefix|..], '/'))
      else None
  }

  /** The segments after a prefix, joined by '/', split back into those segments. */
  lemma PathIdsSplit(segs: seq<string>, n: nat)
    requires n <= |segs|
    requires forall k :: 0 <= k < |segs| ==> '/' !in segs[k]
    requires Join(segs[n..], '/') != []
    ensures Split(Join(segs[n..], '/'), '/') == segs[n..]
    ensures segs == segs[..n] + segs[n..]
  {
    SplitJoin(segs[n..], '/');
  }

  /** What one rule makes of a URL on one of its hosts. */
  function OnRule(rule: Rule, u: Url): Option<Track> {
    match Extract(rule.extractor, u)
    case None => None
    case Some(id) => Some(Track(rule.provider, id))
  }

  /** A rule fires on a URL on one of its hosts whose identifier its extractor finds. */
  predicate Fires(rule: Rule, u: Url) {
    u.host in rule.hosts && Extract(rule.extractor, u).Some?
  }

  /** The track the first rule that fires on the URL makes of it; None when no rule fires. */
  function Apply(rules: seq<Rule>, u: Url): (r: Option<Track>)
    ensures r.Some? ==> r.value.id != []
    ensures r.None? <==> forall k :: 0 <= k < |rules| ==> !Fires(rules[k], u)
    ensures r.Some? ==> exists k :: 0 <= k < |rules| && Fires(rules[k], u) && r == OnRule(rules[k], u)
                          && forall j :: 0 <= j < k ==> !Fires(rules[j], u)
  {
    ApplyFrom(rules, u, 0)
  }

  /** The track the first rule at or after `from` that fires makes of the URL. */
  function ApplyFrom(rules: seq<Rule>, u: Url, from: nat): (r: Option<Track>)
    requires from <= |rules|
    ensures r.Some? ==> r.value.id != []
    ensures r.None? <==> forall k :: from <= k < |rules| ==> !Fires(rules[k], u)
    ensures r.Some? ==> exists k :: from <= k < |rules| && Fires(rules[k], u) && r == OnRule(rules[k], u)
                          && forall j :: from <= j < k ==> !Fires(rules[j], u)
    decreases |rules| - from
  {
    if from == |rules| then None
    else if Fires(rules[from], u) then OnRule(rules[from], u)
    else
      var r := ApplyFrom(rules, u, from + 1);
      ApplyStep(rules, u, from, r);
      r
  }

  /** A rule at `from` that does not fire leaves the first rule firing after it the first from `from`. */
  lemma ApplyStep(rules: seq<Rule>, u: Url, from: nat, r: Option<Track>)
    requires from < |rules| && !Fires(rules[from], u)
    requires r.None? <==> forall k :: from + 1 <= k < |rules| ==> !Fires(rules[k], u)
    requires r.Some? ==> exists k :: from + 1 <= k < |rules| && Fires(rules[k], u) && r == OnRule(rules[k], u)
                           && forall j :: from + 1 <= j < k ==> !Fires(rules[j], u)
    ensures r.None? <==> forall k :: from <= k < |rules| ==> !Fires(rules[k], u)
    ensures r.Some? ==> exists k :: from <= k < |rules| && Fires(rules[k], u) && r == OnRule(rules[k], u)
                          && forall j :: from <= j < k ==> !Fires(rules[j], u)
  {
    if r.Some? {
      var k :| from + 1 <= k < |rules| && Fires(rules[k], u) && r == OnRule(rules[k], u)
               && forall j :: from + 1 <= j < k ==> !Fires(rules[j], u);
      assert forall j :: from <= j < k ==> !Fires(rules[j], u);
    }
  }

  /** Resolves an expanded URL to a provider track, or None for any other URL. */
  function Resolve(expandedUrl: string): (r: Option<Track>)
    ensures r.Some? ==> r.value.id != []
  {
    match ParseUrl(expandedUrl)
    case None => None
    case Some(u) => Apply(Rules, u)
  }

  // ---------------------------------------------------------------------------
  // The resolver, provider by provider
  // ---------------------------------------------------------------------------

  lemma JoinNoneIn(parts: seq<string>, sep: char, c: char)
    requires c != sep
    requires forall k :: 0 <= k < |parts| ==> c !in parts[k]
    ensures c !in Join(parts, sep)
  {
    if |parts| > 1 {
      JoinNoneIn(parts[1..], sep, c);
    }
  }

  /** A well-formed URL on a provider's host resolves to what that provider's rule makes of it. */
  lemma ResolveByRule(u: Url, tr: Track)
    requires WellFormed(u)
    requires || (u.host in YouTubeHosts && OnRule(Rules[0], u) == Some(tr))
             || (u.host in SpotifyHosts && OnRule(Rules[1], u) == Some(tr))
             || (u.host in SoundCloudHosts && OnRule(Rules[2], u) == Some(tr))
    ensures Resolve(Format(u)) == Some(tr)
  {
    ApplyRules(u);
    ResolveFormatted(u);
  }

  lemma ResolveFormatted(u: Url)
    requires WellFormed(u)
    ensures Resolve(Format(u)) == Apply(Rules, u)
  {
    ParseFormat(u);
  }

  /** The rule table, unrolled: a host decides which single rule can apply. */
  lemma ApplyRules(u: Url)
    ensures u.host in YouTubeHosts ==> Apply(Rules, u) == OnRule(Rules[0], u)
    ensures u.host in SpotifyHosts ==> Apply(Rules, u) == OnRule(Rules[1], u)
    ensures u.host in SoundCloudHosts ==> Apply(Rules, u) == OnRule(Rules[2], u)
    ensures u.host !in YouTubeHosts + SpotifyHosts + SoundCloudHosts ==> Apply(Rules, u) == None
  {
    HostsDisjoint();
    assert ApplyFrom(Rules, u, 3) == None;
    assert ApplyFrom(Rules, u, 2) == if u.host in SoundCloudHosts then OnRule(Rules[2], u) else None;
    assert ApplyFrom(Rules, u, 1) == if u.host in SpotifyHosts then OnRule(Rules[1], u) else ApplyFrom(Rules, u, 2);
    assert ApplyFrom(Rules, u, 0) == if u.host in YouTubeHosts then OnRule(Rules[0], u) else ApplyFrom(Rules, u, 1);
  }

  /** No host belongs to two providers. */
  lemma HostsDisjoint()
    ensures forall h :: h in YouTubeHosts ==> h !in SpotifyHosts && h !in SoundCloudHosts
    ensures forall h :: h in SpotifyHosts ==> h !in SoundCloudHosts
  {
    assert "www.youtube.com"[4] == 'y' && "soundcloud.com"[4] == 'd' && "www.soundcloud.com"[4] == 's';
    assert "m.youtube.com"[0] == 'm' && "soundcloud.com"[0] == 's';
    assert "youtube.com"[0] == 'y' && "open.spotify.com"[0] == 'o';
  }

  /** Query pairs that hold neither a pair separator nor a fragment mark. */
  predicate PlainPairs(pairs: seq<string>) {
    forall k :: 0 <= k < |pairs| ==> '&' !in pairs[k] && '#' !in pairs[k]
  }

  /** None of the pairs is named `name`. */
  predicate NoneNamed(pairs: seq<string>, name: string) {
    forall k :: 0 <= k < |pairs| ==> PairValue(pairs[k], name).None?
  }

  /** YouTube: watch?v=ID resolves to ID, wherever `v` first appears among the query's pairs. */
  lemma ResolveYouTube(scheme: string, host: string, pre: seq<string>, id: string, post: seq<string>)
    requires IsWebScheme(scheme) && host in YouTubeHosts
    requires id != [] && '&' !in id && '#' !in id
    requires PlainPairs(pre) && PlainPairs(post) && NoneNamed(pre, "v")
    ensures Resolve(Format(Url(scheme, host, "/watch", Some(Join(pre + ["v=" + id] + post, '&')))))
         == Some(Track(YouTube, id))
  {
    var query := Join(pre + ["v=" + id] + post, '&');
    var u := Url(scheme, host, "/watch", Some(query));
    NoFragmentInQuery(pre, id, post);
    WatchUrlWellFormed(scheme, host, query);
    WatchParam(pre, id, post);
    OnWatchRule(u, id);
    ResolveByRule(u, Track(YouTube, id));
  }

  /** The `v` pair of a watch query is its first pair named `v`. */
  lemma WatchParam(pre: seq<string>, id: string, post: seq<string>)
    requires '&' !in id
    requires PlainPairs(pre) && PlainPairs(post) && NoneNamed(pre, "v")
    ensures QueryParam(Join(pre + ["v=" + id] + post, '&'), "v") == Some(id)
  {
    VPair(id);
    QueryParamFirst(pre, "v", id, post);
  }

  lemma VPair(id: string)
    ensures "v" + "=" + id == "v=" + id
  {
    assert ("v" + "=")[..] == "v=";
  }

  lemma OnWatchRule(u: Url, id: string)
    requires u.path == "/watch" && u.query.Some? && QueryParam(u.query.value, "v") == Some(id) && id != []
    ensures OnRule(Rules[0], u) == Some(Track(YouTube, id))
  {
    assert Rules[0] == Rule(YouTube, YouTubeHosts, QueryParamOn("/watch", "v"));
  }

  lemma WatchUrlWellFormed(scheme: string, host: string, query: string)
    requires IsWebScheme(scheme) && host in YouTubeHosts && NoneIn(query, {'#'})
    ensures WellFormed(Url(scheme, host, "/watch", Some(query)))
  {
    assert NoneIn(host, {'/', '?', '#'}) by {
      assert host == "www.youtube.com" || host == "youtube.com" || host == "m.youtube.com";
    }
    assert NoneIn("/watch", {'?', '#'});
  }

  lemma NoFragmentInQuery(pre: seq<string>, id: string, post: seq<string>)
    requires '#' !in id
    requires forall k :: 0 <= k < |pre| ==> '#' !in pre[k]
    requires forall k :: 0 <= k < |post| ==> '#' !in post[k]
    ensures NoneIn(Join(pre + ["v=" + id] + post, '&'), {'#'})
  {
    var pairs := pre + ["v=" + id] + post;
    assert '#' !in "v=" + id by {
      assert "v=" + id == "v=" + id;
    }
    assert forall k :: 0 <= k < |pairs| ==> '#' !in pairs[k];
    JoinNoneIn(pairs, '&', '#');
  }

  /** Spotify: /track/ID resolves to ID, whatever the query. */
  lemma ResolveSpotify(scheme: string, id: string, query: Option<string>)
    requires IsWebScheme(scheme)
    requires id != [] && NoneIn(id, {'/', '?', '#'})
    requires query.Some? ==> NoneIn(query.value, {'#'})
    ensures Resolve(Format(Url(scheme, "open.spotify.com", "/track/" + id, query))) == Some(Track(Spotify, id))
  {
    var u := Url(scheme, "open.spotify.com", "/track/" + id, query);
    TrackPathPlain(id);
    TrackRule(u, id);
    ResolveByRule(u, Track(Spotify, id));
  }

  lemma TrackPathPlain(id: string)
    requires NoneIn(id, {'?', '#'})
    ensures NoneIn("/track/" + id, {'?', '#'})
  {
    assert NoneIn("/track/", {'?', '#'});
  }

  /** The Spotify rule takes the one segment after `track`. */
  lemma TrackRule(u: Url, id: string)
    requires u.path == "/track/" + id && id != [] && NoneIn(id, {'/'})
    ensures OnRule(Rules[1], u) == Some(Track(Spotify, id))
  {
    assert Rules[1] == Rule(Spotify, SpotifyHosts, PathIds(["track"], 1));
    TrackSegments(id);
    assert Segments(u.path)[1..] == [id];
  }

  lemma TrackSegments(id: string)
    requires NoneIn(id, {'/'})
    ensures Segments("/track/" + id) == ["track", id]
  {
    assert ("/track/" + id)[1..] == Join(["track", id], '/');
    assert forall k :: 0 <= k < 2 ==> NoneIn(["track", id][k], {'/'});
    SplitJoin(["track", id], '/');
  }

  /** SoundCloud: /user/slug resolves to the composite "user/slug", whatever the query. */
  lemma ResolveSoundCloud(scheme: string, host: string, user: string, slug: string, query: Option<string>)
    requires IsWebScheme(scheme) && host in SoundCloudHosts
    requires user != [] && NoneIn(user, {'/', '?', '#'})
    requires slug != [] && NoneIn(slug, {'/', '?', '#'})
    requires query.Some? ==> NoneIn(query.value, {'#'})
    ensures Resolve(Format(Url(scheme, host, "/" + user + "/" + slug, query)))
         == Some(Track(SoundCloud, user + "/" + slug))
  {
    var u := Url(scheme, host, "/" + user + "/" + slug, query);
    SoundCloudHostPlain(host);
    UserSlugPlain(user, slug);
    UserSlugRule(u, user, slug);
    ResolveByRule(u, Track(SoundCloud, user + "/" + slug));
  }

  lemma SoundCloudHostPlain(host: string)
    requires host in SoundCloudHosts
    ensures NoneIn(host, {'/', '?', '#'})
  {
    assert host == "soundcloud.com" || host == "www.soundcloud.com";
  }

  /** The SoundCloud rule joins the two path segments back with their slash. */
  lemma UserSlugRule(u: Url, user: string, slug: string)
    requires u.path == "/" + user + "/" + slug
    requires user != [] && NoneIn(user, {'/'}) && slug != [] && NoneIn(slug, {'/'})
    ensures OnRule(Rules[2], u) == Some(Track(SoundCloud, user + "/" + slug))
  {
    assert Rules[2] == Rule(SoundCloud, SoundCloudHosts, PathIds([], 2));
    UserSlugSegments(user, slug);
  }

  lemma UserSlugPlain(user: string, slug: string)
    requires NoneIn(user, {'?', '#'}) && NoneIn(slug, {'?', '#'})
    ensures NoneIn("/" + user + "/" + slug, {'?', '#'})
  {
  }

  lemma UserSlugSegments(user: string, slug: string)
    requires NoneIn(user, {'/'}) && NoneIn(slug, {'/'})
    ensures Segments("/" + user + "/" + slug) == [user, slug]
    ensures Join([user, slug], '/') == user + "/" + slug
  {
    assert ("/" + user + "/" + slug)[1..] == Join([user, slug], '/');
    SplitJoin([user, slug], '/');
  }

  /**
   * What a resolved URL looks like: it splits into parts, and the rule of the
   * track's provider fired on them. Conversely, a URL on a provider's host
   * with any other path, or without the identifier, resolves to nothing.
   */
  lemma ResolveShape(s: string, tr: Track)
    requires Resolve(s) == Some(tr)
    ensures ParseUrl(s).Some?
    ensures var u := ParseUrl(s).value;
      match tr.provider
      case YouTube =>
        && u.host in YouTubeHosts && u.path == "/watch"
        && u.query.Some? && QueryParam(u.query.value, "v") == Some(tr.id)
      case Spotify =>
        u.host in SpotifyHosts && Segments(u.path) == ["track", tr.id]
      case SoundCloud =>
        && u.host in SoundCloudHosts && |Segments(u.path)| == 2
        && Segments(u.path)[0] != [] && Segments(u.path)[1] != []
        && tr.id == Segments(u.path)[0] + "/" + Segments(u.path)[1]
  {
    var u := ParseUrl(s).value;
    ApplyRules(u);
    HostsDisjoint();
    if u.host in YouTubeHosts {
      WatchShape(u, tr);
    } else if u.host in SpotifyHosts {
      TrackShape(u, tr);
    } else {
      UserSlugShape(u, tr);
    }
  }

  lemma WatchShape(u: Url, tr: Track)
    requires OnRule(Rules[0], u) == Some(tr)
    ensures tr.provider == YouTube && u.path == "/watch"
    ensures u.query.Some? && QueryParam(u.query.value, "v") == Some(tr.id)
  {
    assert Rules[0] == Rule(YouTube, YouTubeHosts, QueryParamOn("/watch", "v"));
  }

  lemma TrackShape(u: Url, tr: Track)
    requires OnRule(Rules[1], u) == Some(tr)
    ensures tr.provider == Spotify && Segments(u.path) == ["track", tr.id]
  {
    assert Rules[1] == Rule(Spotify, SpotifyHosts, PathIds(["track"], 1));
    var parts := Split(tr.id, '/');
    assert |parts| == 1 && Join(parts, '/') == tr.id;
    assert parts == [tr.id];
  }

  lemma UserSlugShape(u: Url, tr: Track)
    requires OnRule(Rules[2], u) == Some(tr)
    ensures tr.provider == SoundCloud && |Segments(u.path)| == 2
    ensures Segments(u.path)[0] != [] && Segments(u.path)[1] != []
    ensures tr.id == Segments(u.path)[0] + "/" + Segments(u.path)[1]
  {
    assert Rules[2] == Rule(SoundCloud, SoundCloudHosts, PathIds([], 2));
    var parts := Split(tr.id, '/');
    assert Segments(u.path) == [] + parts == parts;
    assert Join(parts, '/') == parts[0] + ['/'] + Join(parts[1..], '/');
  }

  /** A URL on any other host is no track. */
  lemma ResolveUnknownHost(s: string)
    requires ParseUrl(s).Some?
    requires ParseUrl(s).value.host !in YouTubeHosts + SpotifyHosts + SoundCloudHosts
    ensures Resolve(s) == None
  {
    ApplyRules(ParseUrl(s).value);
  }
}
