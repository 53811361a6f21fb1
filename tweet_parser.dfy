/**
 * The tweet command parser: a mention addressed to the jukebox bot becomes a
 * TOKEN, LINK or SEARCH command, or no command at all.
 *
 * The order of the checks is fixed: a URL entity that resolves to a provider
 * track wins; otherwise the text left after masking the bot's address and the
 * entities is read as an optional `play` keyword and a body, provider hashtags
 * give search URIs, a bare digit code is a TOKEN, and anything else is split
 * on the first standalone `by` into a SEARCH query.
 */
module TweetParser {
  import opened Wrappers
  import opened Text
  import opened Urls

  // ---------------------------------------------------------------------------
  // The inbound mention
  // ---------------------------------------------------------------------------

  datatype UrlEntity = UrlEntity(indices: Span, expandedUrl: string)
  datatype MentionEntity = MentionEntity(indices: Span, screenName: string)
  datatype HashtagEntity = HashtagEntity(indices: Span, text: string)

  /** The platform's `entities` record; each of its arrays may be missing. */
  datatype Entities = Entities(
    urls: Option<seq<UrlEntity>>,
    userMentions: Option<seq<MentionEntity>>,
    hashtags: Option<seq<HashtagEntity>>)

  /** A mention as the parser reads it: its text and, possibly, its entities. */
  datatype Tweet = Tweet(text: string, entities: Option<Entities>)

  /** A missing `entities` record or a missing array reads as an empty array. */
  function UrlsOf(t: Tweet): seq<UrlEntity> {
    match t.entities
    case None => []
    case Some(e) => if e.urls.Some? then e.urls.value else []
  }

  function MentionsOf(t: Tweet): seq<MentionEntity> {
    match t.entities
    case None => []
    case Some(e) => if e.userMentions.Some? then e.userMentions.value else []
  }

  function HashtagsOf(t: Tweet): seq<HashtagEntity> {
    match t.entities
    case None => []
    case Some(e) => if e.hashtags.Some? then e.hashtags.value else []
  }

  // ---------------------------------------------------------------------------
  // The command
  // ---------------------------------------------------------------------------

  /** A search query; a part that would be empty is absent. */
  datatype Query = Query(any: Option<string>, artist: Option<string>)

  const NoQuery := Query(None, None)

  /** The parse result; `Option<Result>`'s None stands for `null`. */
  datatype Result =
    | Token(code: string)
    | Link(provider: Provider, id: string)
    | Search(query: Query, uris: seq<string>)

  /** Present query parts are non-empty and carry no outer whitespace. */
  predicate WellFormedQuery(q: Query) {
    && (q.any.Some? ==> q.any.value != [] && IsTrimmed(q.any.value))
    && (q.artist.Some? ==> q.artist.value != [] && IsTrimmed(q.artist.value))
  }

  // ---------------------------------------------------------------------------
  // URL entities
  // ---------------------------------------------------------------------------

  /** The track of the first URL entity that resolves, in the platform's order. */
  function FirstLink(urls: seq<UrlEntity>): (r: Option<Track>)
    ensures r.None? <==> forall k :: 0 <= k < |urls| ==> Resolve(urls[k].expandedUrl).None?
    ensures r.Some? ==> exists k :: 0 <= k < |urls| && Resolve(urls[k].expandedUrl) == r
                          && forall j :: 0 <= j < k ==> Resolve(urls[j].expandedUrl).None?
  {
    FirstLinkFrom(urls, 0)
  }

  /** The track of the first URL entity at or after `from` that resolves. */
  function FirstLinkFrom(urls: seq<UrlEntity>, from: nat): (r: Option<Track>)
    requires from <= |urls|
    ensures r.None? <==> forall k :: from <= k < |urls| ==> Resolve(urls[k].expandedUrl).None?
    ensures r.Some? ==> exists k :: from <= k < |urls| && Resolve(urls[k].expandedUrl) == r
                          && forall j :: from <= j < k ==> Resolve(urls[j].expandedUrl).None?
    decreases |urls| - from
  {
    if from == |urls| then None
    else if Resolve(urls[from].expandedUrl).Some? then Resolve(urls[from].expandedUrl)
    else
      var r := FirstLinkFrom(urls, from + 1);
      FirstLinkStep(urls, from, r);
      r
  }

  /** An unresolvable URL at `from` leaves the first link after it the first link from `from`. */
  lemma FirstLinkStep(urls: seq<UrlEntity>, from: nat, r: Option<Track>)
    requires from < |urls| && Resolve(urls[from].expandedUrl).None?
    requires r.None? <==> forall k :: from + 1 <= k < |urls| ==> Resolve(urls[k].expandedUrl).None?
    requires r.Some? ==> exists k :: from + 1 <= k < |urls| && Resolve(urls[k].expandedUrl) == r
                           && forall j :: from + 1 <= j < k ==> Resolve(urls[j].expandedUrl).None?
    ensures r.None? <==> forall k :: from <= k < |urls| ==> Resolve(urls[k].expandedUrl).None?
    ensures r.Some? ==> exists k :: from <= k < |urls| && Resolve(urls[k].expandedUrl) == r
                          && forall j :: from <= j < k ==> Resolve(urls[j].expandedUrl).None?
  {
    if r.Some? {
      var k :| from + 1 <= k < |urls| && Resolve(urls[k].expandedUrl) == r
               && forall j :: from + 1 <= j < k ==> Resolve(urls[j].expandedUrl).None?;
      assert forall j :: from <= j < k ==> Resolve(urls[j].expandedUrl).None?;
    }
  }

  // ---------------------------------------------------------------------------
  // Masking the address and the entities
  // ---------------------------------------------------------------------------

  /** How a mention addresses the bot: "@" followed by its handle. */
  function Address(handle: string): string {
    "@" + handle
  }

  /** Blanks the leading "@handle" of a text that starts with it. */
  function MaskAddress(handle: string, text: string): (r: string)
    ensures |r| == |text|
    ensures IsPrefix(Address(handle), text) ==>
      forall i :: 0 <= i < |text| ==> r[i] == if i <= |handle| then ' ' else text[i]
    ensures !IsPrefix(Address(handle), text) ==> r == text
  {
    if IsPrefix(Address(handle), text) then ReplaceWithSpaces(text, 0, |handle| + 1) else text
  }

  /** The spans of the user mentions that name the bot itself. */
  function BotMentionSpans(handle: string, ms: seq<MentionEntity>): seq<Span> {
    if ms == [] then []
    else (if ms[0].screenName == handle then [ms[0].indices] else []) + BotMentionSpans(handle, ms[1..])
  }

  function UrlSpans(us: seq<UrlEntity>): seq<Span> {
    seq(|us|, i requires 0 <= i < |us| => us[i].indices)
  }

  function HashtagSpans(hs: seq<HashtagEntity>): seq<Span> {
    seq(|hs|, i requires 0 <= i < |hs| => hs[i].indices)
  }

  /** Every span the parser blanks besides the leading address. */
  function EntitySpans(handle: string, t: Tweet): seq<Span> {
    BotMentionSpans(handle, MentionsOf(t)) + UrlSpans(UrlsOf(t)) + HashtagSpans(HashtagsOf(t))
  }

  /**
   * The text with the leading address, the bot's mention spans, the URL spans
   * and the hashtag spans blanked; every other character keeps its place.
   */
  function MaskedText(handle: string, t: Tweet): (r: string)
    ensures |r| == |t.text|
    ensures forall i :: 0 <= i < |t.text| ==>
      r[i] == (if || (IsPrefix(Address(handle), t.text) && i <= |handle|)
                  || Covered(BotMentionSpans(handle, MentionsOf(t)), i)
                  || Covered(UrlSpans(UrlsOf(t)), i)
                  || Covered(HashtagSpans(HashtagsOf(t)), i)
               then ' ' else t.text[i])
  {
    var ms, us, hs := BotMentionSpans(handle, MentionsOf(t)), UrlSpans(UrlsOf(t)), HashtagSpans(HashtagsOf(t));
    forall i ensures Covered(EntitySpans(handle, t), i) <==> Covered(ms, i) || Covered(us, i) || Covered(hs, i) {
      CoveredAppend(ms + us, hs, i);
      CoveredAppend(ms, us, i);
    }
    MaskSpans(MaskAddress(handle, t.text), EntitySpans(handle, t))
  }

  // ---------------------------------------------------------------------------
  // The `play` keyword and the body
  // ---------------------------------------------------------------------------

  const Keyword := "play"

  /** `s` begins with the whole word `w`. */
  predicate StartsWithWord(s: string, w: string) {
    IsPrefix(w, s) && (|s| == |w| || !IsWordChar(s[|w|]))
  }

  /** The command body: whether the `play` keyword led it, and what follows, trimmed. */
  datatype Body = Body(keyword: bool, rest: string)

  /** Trims the masked text and takes off a leading `play` keyword. */
  function CommandBody(masked: string): (b: Body)
    ensures IsTrimmed(b.rest)
    ensures b.keyword <==> StartsWithWord(Trim(masked), Keyword)
  {
    var s := Trim(masked);
    if StartsWithWord(s, Keyword) then Body(true, Trim(s[|Keyword|..])) else Body(false, s)
  }

  // ---------------------------------------------------------------------------
  // Hashtags
  // ---------------------------------------------------------------------------

  /** The provider a hashtag names, ignoring case. */
  function ProviderOfTag(tag: string): (r: Option<Provider>)
    ensures r.Some? ==> Lower(tag) == Name(r.value)
    ensures r.None? ==> forall p: Provider :: Lower(tag) != Name(p)
  {
    var t := Lower(tag);
    if t == Name(YouTube) then Some(YouTube)
    else if t == Name(Spotify) then Some(Spotify)
    else if t == Name(SoundCloud) then Some(SoundCloud)
    else None
  }

  /** The provider search URI for a term; it begins with the provider's name. */
  function SearchUri(p: Provider, term: string): (uri: string)
    ensures IsPrefix(Name(p), uri)
  {
    Name(p) + ":search:" + term
  }

  /** One search URI per provider hashtag, in hashtag order. */
  function HashtagUris(tags: seq<HashtagEntity>, term: string): (uris: seq<string>)
    ensures |uris| <= |tags|
  {
    if tags == [] then []
    else
      var p := ProviderOfTag(tags[0].text);
      (if p.Some? then [SearchUri(p.value, term)] else []) + HashtagUris(tags[1..], term)
  }

  // ---------------------------------------------------------------------------
  // Tokens
  // ---------------------------------------------------------------------------

  /**
   * A verification code: one or more decimal digits. A code has no outer
   * whitespace and is never read as the `play` keyword or as a search with `by`.
   */
  predicate IsCode(s: string)
    ensures IsCode(s) ==> IsTrimmed(s) && !StartsWithWord(s, Keyword) && FindBy(s, 0).None?
  {
    s != [] && forall i :: 0 <= i < |s| ==> IsDigit(s[i])
  }

  // ---------------------------------------------------------------------------
  // Search segmentation
  // ---------------------------------------------------------------------------

  /** A standalone `by` (word boundaries on both sides) starts at position i. */
  predicate ByAt(s: string, i: int) {
    && 0 <= i && i + 2 <= |s| && s[i] == 'b' && s[i + 1] == 'y'
    && (i == 0 || !IsWordChar(s[i - 1]))
    && (i + 2 == |s| || !IsWordChar(s[i + 2]))
  }

  /** The first standalone `by` at or after `from`. */
  function FindBy(s: string, from: nat): (r: Option<nat>)
    requires from <= |s|
    ensures r.Some? ==> from <= r.value && ByAt(s, r.value)
                        && forall j :: from <= j < r.value ==> !ByAt(s, j)
    ensures r.None? ==> forall j :: from <= j < |s| ==> !ByAt(s, j)
    decreases |s| - from
  {
    if from == |s| then None
    else if ByAt(s, from) then Some(from)
    else FindBy(s, from + 1)
  }

  function NonEmpty(s: string): (r: Option<string>)
    ensures r.Some? <==> s != []
    ensures r.Some? ==> r.value == s
  {
    if s == [] then None else Some(s)
  }

  /**
   * Splits a search body on its first standalone `by`: the trimmed text before
   * it is `any`, the trimmed text after it `artist`; without a `by` the whole
   * trimmed body is `any`. Empty parts are absent.
   */
  function Segment(s: string): (q: Query)
    ensures WellFormedQuery(q)
    ensures q.artist.Some? ==> FindBy(s, 0).Some?
  {
    match FindBy(s, 0)
    case Some(i) => Query(NonEmpty(Trim(s[..i])), NonEmpty(Trim(s[i + 2..])))
    case None => Query(NonEmpty(Trim(s)), None)
  }

  // ---------------------------------------------------------------------------
  // The parser
  // ---------------------------------------------------------------------------

  /**
   * The classification after the URL step: TOKEN for a bare code without the
   * keyword or hashtag URIs, else SEARCH when there is a query or a URI, else
   * no command.
   */
  function Classify(body: Body, uris: seq<string>): (r: Option<Result>)
    ensures r.Some? ==> !r.value.Link?
    ensures (r.Some? && r.value.Token?) <==> !body.keyword && uris == [] && IsCode(body.rest)
    ensures r.Some? && r.value.Token? ==> r.value.code == body.rest
    ensures r.Some? && r.value.Search? ==>
      WellFormedQuery(r.value.query) && (r.value.query != NoQuery || r.value.uris != [])
  {
    if !body.keyword && uris == [] && IsCode(body.rest) then Some(Token(body.rest))
    else
      var q := Segment(body.rest);
      if q == NoQuery && uris == [] then None else Some(Search(q, uris))
  }

  /**
   * parse: LINK when a URL entity resolves; otherwise the body left after
   * masking, with the URIs of its provider hashtags, is classified.
   */
  function Parse(handle: string, t: Tweet): (r: Option<Result>)
    ensures (r.Some? && r.value.Link?) <==>
      exists k :: 0 <= k < |UrlsOf(t)| && Resolve(UrlsOf(t)[k].expandedUrl).Some?
    ensures r.Some? && r.value.Link? ==> r.value.id != []
    ensures r.Some? && r.value.Token? ==> IsCode(r.value.code)
    ensures r.Some? && r.value.Search? ==>
      WellFormedQuery(r.value.query) && (r.value.query != NoQuery || r.value.uris != [])
  {
    match FirstLink(UrlsOf(t))
    case Some(track) => Some(Link(track.provider, track.id))
    case None =>
      var body := CommandBody(MaskedText(handle, t));
      Classify(body, HashtagUris(HashtagsOf(t), body.rest))
  }
}
