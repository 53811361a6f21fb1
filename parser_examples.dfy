/**
 * The cases of the parser's test suite, for a bot whose handle is
 * "testando_123" (the mention span [0, 13) of the tests is "@" and those
 * twelve characters).
 */
module ParserExamples {
  import opened Wrappers
  import opened Text
  import opened Urls
  import opened TweetParser
  import opened ParserProperties

  const Handle := "testando_123"

  /** A mention carrying only URL entities, as in the URL tests. */
  function WithUrl(text: string, url: string): Tweet {
    Tweet(text, Some(Entities(Some([UrlEntity(Span(76, 97), url)]), None, None)))
  }

  /** A mention with the bot's own user-mention entity and the given hashtags, as in the search tests. */
  function Addressed(text: string, tags: seq<HashtagEntity>): Tweet {
    Tweet(text, Some(Entities(Some([]), Some([MentionEntity(Span(0, 13), Handle)]), Some(tags))))
  }

  // ---------------------------------------------------------------------------
  // Texts of the tests, built from their pieces
  // ---------------------------------------------------------------------------

  /** The address that opens every request: the mention span [0, 13). */
  const BotAddress := "@" + Handle
  const TrackName := "like a virgin"
  const ArtistName := "madonna"

  /** "@testando_123 play like a virgin by madonna". */
  const Sample := BotAddress + " play " + TrackName + " by " + ArtistName

  /** Regrouping a four-piece concatenation. */
  lemma Regroup(a: string, b: string, c: string, d: string)
    ensures a + b + c + d == a + (b + c + d)
    ensures a + b + c + d == a + b + (c + d)
  {
  }

  // ---------------------------------------------------------------------------
  // replaceWithSpaces
  // ---------------------------------------------------------------------------

  /** Blanking [0, 13) of the sample blanks the address and keeps the rest. */
  lemma MaskAtStart()
    ensures |BotAddress| == 13
    ensures ReplaceWithSpaces(Sample, 0, 13) == Spaces(13) + (" play " + TrackName + " by " + ArtistName)
  {
    var rest := " play " + TrackName + " by " + ArtistName;
    Regroup(BotAddress + " play ", TrackName, " by ", ArtistName);
    Regroup(BotAddress, " play ", TrackName, " by " + ArtistName);
    assert Sample == [] + BotAddress + rest;
    ReplaceWithSpacesPiece([], BotAddress, rest);
  }

  /** Blanking [14, 18) of "@testando_1234play5like a virgin by madonna" blanks "play" only. */
  lemma MaskInside()
    ensures |BotAddress + "4"| == 14
    ensures var tail := "5" + TrackName + " by " + ArtistName;
      ReplaceWithSpaces(BotAddress + "4" + "play" + tail, 14, 18) == BotAddress + "4" + Spaces(4) + tail
  {
    ReplaceWithSpacesPiece(BotAddress + "4", "play", "5" + TrackName + " by " + ArtistName);
  }

  /** Blanking [36, 43) of the sample blanks the artist at its end. */
  lemma MaskAtEnd()
    ensures |BotAddress + " play " + TrackName + " by "| == 36 && |Sample| == 43
    ensures ReplaceWithSpaces(Sample, 36, 43) == BotAddress + " play " + TrackName + " by " + Spaces(7)
  {
    var front := BotAddress + " play " + TrackName + " by ";
    assert Sample == front + ArtistName + [];
    ReplaceWithSpacesPiece(front, ArtistName, []);
    assert front + Spaces(7) + [] == front + Spaces(7);
  }

  // ---------------------------------------------------------------------------
  // TOKEN
  // ---------------------------------------------------------------------------

  /** A bare code after the address, with no entities at all, is a TOKEN. */
  lemma TokenRequest()
    ensures Parse(Handle, Tweet(BotAddress + " 1234", None)) == Some(Token("1234"))
  {
    assert BotAddress + " 1234" == "@" + Handle + " " + "1234" by {
      assert " " + "1234" == " 1234";
    }
    ParseToken(Handle, "1234");
  }

  // ---------------------------------------------------------------------------
  // LINK
  // ---------------------------------------------------------------------------

  /** A tweet whose one URL resolves is a LINK to that track, whatever its text says. */
  lemma LinkTweet(text: string, url: string, track: Track)
    requires Resolve(url) == Some(track)
    ensures Parse(Handle, WithUrl(text, url)) == Some(Link(track.provider, track.id))
  {
    var t := WithUrl(text, url);
    assert UrlsOf(t) == [UrlEntity(Span(76, 97), url)];
    assert FirstLink(UrlsOf(t)) == Some(track);
    LinkPrecedence(Handle, t, Handle, t);
  }

  const YouTubeId := "wZZ7oFKsKzY"
  const SpotifyId := "4v0tapCyBcdyEbIpd1zZGU"
  const SoundCloudUser := "lfcipriani"
  const SoundCloudSlug := "beastie-boys-i-dontt-know"

  /** "https://www.youtube.com/watch?v=wZZ7oFKsKzY". */
  const YouTubeUrl := Format(Url("https", "www.youtube.com", "/watch", Some("v=" + YouTubeId)))
  /** "http://open.spotify.com/track/4v0tapCyBcdyEbIpd1zZGU". */
  const SpotifyUrl := Format(Url("http", "open.spotify.com", "/track/" + SpotifyId, None))
  /** "https://soundcloud.com/lfcipriani/beastie-boys-i-dontt-know". */
  const SoundCloudUrl := Format(Url("https", "soundcloud.com", "/" + SoundCloudUser + "/" + SoundCloudSlug, None))

  lemma YouTubeResolves()
    ensures Resolve(YouTubeUrl) == Some(Track(YouTube, YouTubeId))
  {
    var pair := "v=" + YouTubeId;
    assert [] + [pair] + [] == [pair];
    assert Join([pair], '&') == pair;
    ResolveYouTube("https", "www.youtube.com", [], YouTubeId, []);
  }

  lemma YouTubeLink()
    ensures Parse(Handle, WithUrl(BotAddress + " play ", YouTubeUrl)) == Some(Link(YouTube, YouTubeId))
  {
    YouTubeResolves();
    LinkTweet(BotAddress + " play ", YouTubeUrl, Track(YouTube, YouTubeId));
  }

  lemma SpotifyLink()
    ensures Parse(Handle, WithUrl(BotAddress + " play ", SpotifyUrl)) == Some(Link(Spotify, SpotifyId))
  {
    ResolveSpotify("http", SpotifyId, None);
    LinkTweet(BotAddress + " play ", SpotifyUrl, Track(Spotify, SpotifyId));
  }

  /** The composite SoundCloud id keeps its slash, and the URL wins over the text "play madonna". */
  lemma SoundCloudLink()
    ensures Parse(Handle, WithUrl(BotAddress + " play " + ArtistName, SoundCloudUrl))
         == Some(Link(SoundCloud, SoundCloudUser + "/" + SoundCloudSlug))
  {
    ResolveSoundCloud("https", "soundcloud.com", SoundCloudUser, SoundCloudSlug, None);
    LinkTweet(BotAddress + " play " + ArtistName, SoundCloudUrl, Track(SoundCloud, SoundCloudUser + "/" + SoundCloudSlug));
  }

  // ---------------------------------------------------------------------------
  // SEARCH and no command
  // ---------------------------------------------------------------------------

  /** The spans of an addressed tweet: the bot's mention, then its hashtags. */
  lemma AddressedSpans(text: string, tags: seq<HashtagEntity>)
    ensures EntitySpans(Handle, Addressed(text, tags)) == [Span(0, 13)] + HashtagSpans(tags)
  {
    var ms := [MentionEntity(Span(0, 13), Handle)];
    assert ms[1..] == [];
    assert BotMentionSpans(Handle, ms) == [Span(0, 13)];
    assert UrlSpans([]) == [];
  }

  /** "@testando_123 play <query>" with hashtags past the query asks for that search. */
  lemma AddressedSearch(q: Query, tags: seq<HashtagEntity>)
    requires Composable(q)
    requires SpansOutside(HashtagSpans(tags), 13, 19 + |QueryText(q)|)
    requires q != NoQuery || HashtagUris(tags, QueryText(q)) != []
    ensures Parse(Handle, Addressed(BotAddress + " play " + QueryText(q), tags))
         == Some(Search(q, HashtagUris(tags, QueryText(q))))
  {
    var t := Addressed(BotAddress + " play " + QueryText(q), tags);
    AddressedSpans(t.text, tags);
    ParseSearch(Handle, q, t);
  }

  lemma LikeAVirginComposable()
    ensures Composable(Query(Some(TrackName), Some(ArtistName)))
    ensures Composable(Query(Some(TrackName), None))
    ensures Composable(Query(None, Some(ArtistName)))
  {
    NoBWithoutB(TrackName);
  }

  const TrackByArtist := Query(Some(TrackName), Some(ArtistName))

  /** The sample request, whatever hashtags past its text it carries. */
  lemma SampleSearch(tags: seq<HashtagEntity>)
    requires SpansOutside(HashtagSpans(tags), 13, 43)
    ensures Parse(Handle, Addressed(Sample, tags))
         == Some(Search(TrackByArtist, HashtagUris(tags, TrackName + " by " + ArtistName)))
  {
    LikeAVirginComposable();
    Regroup(BotAddress + " play ", TrackName, " by ", ArtistName);
    AddressedSearch(TrackByArtist, tags);
  }

  lemma SearchTrackByArtist()
    ensures Parse(Handle, Addressed(Sample, [])) == Some(Search(Query(Some(TrackName), Some(ArtistName)), []))
  {
    SampleSearch([]);
  }

  lemma SearchTrackOnly()
    ensures Parse(Handle, Addressed(BotAddress + " play " + TrackName, []))
         == Some(Search(Query(Some(TrackName), None), []))
  {
    LikeAVirginComposable();
    AddressedSearch(Query(Some(TrackName), None), []);
  }

  lemma SearchArtistOnly()
    ensures Parse(Handle, Addressed(BotAddress + " play " + ("by " + ArtistName), []))
         == Some(Search(Query(None, Some(ArtistName)), []))
  {
    LikeAVirginComposable();
    AddressedSearch(Query(None, Some(ArtistName)), []);
  }

  const YouTubeTag := HashtagEntity(Span(44, 52), "youtube")
  const SoundCloudTag := HashtagEntity(Span(53, 64), "soundcloud")

  lemma YouTubeTagUri(term: string)
    ensures HashtagUris([YouTubeTag], term) == [SearchUri(YouTube, term)]
  {
    assert YouTubeTag.text == Name(YouTube);
    ProviderOfName(YouTube);
    HashtagUrisOne(YouTubeTag, term);
  }

  lemma SoundCloudTagUri(term: string)
    ensures HashtagUris([SoundCloudTag], term) == [SearchUri(SoundCloud, term)]
  {
    assert SoundCloudTag.text == Name(SoundCloud);
    ProviderOfName(SoundCloud);
    HashtagUrisOne(SoundCloudTag, term);
  }

  lemma TagUris(term: string)
    ensures HashtagUris([YouTubeTag], term) == [SearchUri(YouTube, term)]
    ensures HashtagUris([YouTubeTag, SoundCloudTag], term) == [SearchUri(YouTube, term), SearchUri(SoundCloud, term)]
  {
    YouTubeTagUri(term);
    SoundCloudTagUri(term);
    TwoTagUris(YouTubeTag, SoundCloudTag, term);
  }

  /** The URIs of two hashtags are those of the first, then those of the second. */
  lemma TwoTagUris(a: HashtagEntity, b: HashtagEntity, term: string)
    ensures HashtagUris([a, b], term) == HashtagUris([a], term) + HashtagUris([b], term)
  {
    HashtagUrisAppend([a], [b], term);
    assert [a] + [b] == [a, b];
  }

  /** Both hashtags of the tests lie past the end of the 43-character text. */
  lemma TagsPastText()
    ensures SpansOutside(HashtagSpans([YouTubeTag]), 13, 43)
    ensures SpansOutside(HashtagSpans([YouTubeTag, SoundCloudTag]), 13, 43)
  {
  }

  /** A #youtube hashtag (its offsets lie past the end of the text) adds a YouTube search URI. */
  lemma SearchWithYouTubeTag()
    ensures var r := Parse(Handle, Addressed(Sample, [YouTubeTag]));
      && r == Some(Search(TrackByArtist, [SearchUri(YouTube, TrackName + " by " + ArtistName)]))
      && IsPrefix("youtube", r.value.uris[0])
  {
    TagsPastText();
    SampleSearch([YouTubeTag]);
    TagUris(TrackName + " by " + ArtistName);
  }

  /** #youtube then #soundcloud give two URIs, the YouTube one first. */
  lemma SearchWithTwoTags()
    ensures var r := Parse(Handle, Addressed(Sample, [YouTubeTag, SoundCloudTag]));
      && r == Some(Search(TrackByArtist, [SearchUri(YouTube, TrackName + " by " + ArtistName),
                                          SearchUri(SoundCloud, TrackName + " by " + ArtistName)]))
      && |r.value.uris| == 2 && IsPrefix("youtube", r.value.uris[0])
  {
    TagsPastText();
    SampleSearch([YouTubeTag, SoundCloudTag]);
    TagUris(TrackName + " by " + ArtistName);
  }

  /** A #youtube hashtag inside the text, right after the track name: "#youtube" is [33, 41). */
  const InlineTag := HashtagEntity(Span(33, 41), "youtube")

  lemma InlineTagUri(term: string)
    ensures HashtagUris([InlineTag], term) == [SearchUri(YouTube, term)]
  {
    assert InlineTag.text == Name(YouTube);
    ProviderOfName(YouTube);
    HashtagUrisOne(InlineTag, term);
  }

  /**
   * "@testando_123 play <query> <tail>", where a hashtag's span is exactly the
   * tail and no other hashtag reaches into the text: the tail is blanked.
   */
  lemma AddressedSearchTail(q: Query, tail: string, tags: seq<HashtagEntity>)
    requires Composable(q)
    requires Span(20 + |QueryText(q)|, 20 + |QueryText(q)| + |tail|) in HashtagSpans(tags)
    requires SpansOutside(HashtagSpans(tags), 13, 20 + |QueryText(q)|)
    requires q != NoQuery || HashtagUris(tags, QueryText(q)) != []
    ensures Parse(Handle, Addressed(BotAddress + " play " + QueryText(q) + " " + tail, tags))
         == Some(Search(q, HashtagUris(tags, QueryText(q))))
  {
    var t := Addressed(BotAddress + " play " + QueryText(q) + " " + tail, tags);
    AddressedSpans(t.text, tags);
    ParseSearchEntityTail(Handle, q, tail, t);
  }

  /**
   * "@testando_123 play like a virgin #youtube": the hashtag's span is blanked,
   * so the query is the track name alone, and the hashtag adds its YouTube URI.
   */
  lemma SearchWithInlineTag()
    ensures Parse(Handle, Addressed(BotAddress + " play " + TrackName + " " + "#youtube", [InlineTag]))
         == Some(Search(Query(Some(TrackName), None), [SearchUri(YouTube, TrackName)]))
  {
    LikeAVirginComposable();
    assert HashtagSpans([InlineTag]) == [Span(33, 41)];
    InlineTagUri(TrackName);
    AddressedSearchTail(Query(Some(TrackName), None), "#youtube", [InlineTag]);
  }

  /** The address alone is no command. */
  lemma AddressOnly()
    ensures Parse(Handle, Addressed(BotAddress, [])) == None
  {
    ParseAddressOnly(Handle, Addressed(BotAddress, []));
  }
}
