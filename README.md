# Tweet command parser of tweet-jukebox, modelled in Dafny

tweet-jukebox lets people drive a shared music player by mentioning a bot
account. The tweet command parser (`tweetParser.replaceWithSpaces` and
`tweetParser.parse`) takes one mention and returns one command or `null`:

- a **TOKEN** when the mention holds only a verification code;
- a **LINK** when one of its URL entities points at a YouTube, Spotify or
  SoundCloud track;
- a **SEARCH** when anything else is left: free text, with or without a
  leading `play` keyword, or a provider hashtag.

This project models that parser as pure functions and proves what its
behaviour promises. The parser's implementation file, `libs/tweet_parser.js`,
is not part of this model. The behaviour follows the assertions of
`test/tweet_parser_test.js` and the repository's design description.

Modules, one per part of the parser:

- `Wrappers`: `Option`. `None` stands for JavaScript's `null` and for absent fields.
- `Text`: JavaScript string behaviour the parser relies on:
  - the `trim` whitespace set;
  - ASCII `toLowerCase`;
  - the `\w` word class;
  - `replaceWithSpaces` (masking one span);
  - masking a list of entity spans;
  - `split`/`join` on one character.
- `Urls`: URL resolution.
  - An expanded URL is split into scheme, host, path and query.
  - The query component is read as `name=value` pairs joined by `&`, as in
    section 3.4 of RFC 3986 and the usual form encoding.
  - A three-rule table maps the URL to a provider track:
    - `watch?v=ID` on YouTube hosts;
    - `/track/ID` on `open.spotify.com`;
    - `/user/slug` on SoundCloud hosts.
- `TweetParser`: the entity records and the parse itself. Its steps, in order:
  1. blank the leading `@handle`, the user-mention spans that name the bot,
     and every URL and hashtag span;
  2. the first resolving URL wins (LINK);
  3. otherwise take an optional leading `play` keyword;
  4. turn provider hashtags into search URIs, in entity order;
  5. a bare digit code without keyword or URIs is a TOKEN;
  6. otherwise split the body on the first standalone `by` into `any` and
     `artist`, which gives a SEARCH, or no command when nothing is left.
- `ParserProperties`: the parser's promises over all inputs, each proved as a lemma:
  - precedence of links;
  - exactly when the result is `null`;
  - the segmenter undoes composing a query;
  - hashtag order;
  - the TOKEN and SEARCH shapes of an addressed mention.
- `ParserExamples`: every case of the test file, stated as a lemma about the
  model. The bot handle is `testando_123`, so the mention span `[0, 13)` is
  `"@testando_123"`.

The bot handle is a parameter of `Parse`; nothing reads configuration.

## Model

| member | source | states |
|---|---|---|
| Text.ReplaceWithSpaces | test/tweet_parser_test.js:100-108 | The result has the input's length. Every position in `[start, end)` is a space and every other position keeps its character; out-of-range bounds blank nothing beyond the text. |
| Text.ReplaceWithSpacesPiece | test/tweet_parser_test.js:100-108 | Masking exactly the middle piece of `a + b + c` gives `a`, then one space per character of `b`, then `c`. |
| ParserExamples.MaskAtStart | test/tweet_parser_test.js:101-102 | Masking `[0, 13)` of "@testando_123 play like a virgin by madonna" gives 13 spaces followed by the rest of the text unchanged. |
| ParserExamples.MaskInside | test/tweet_parser_test.js:104-105 | Masking `[14, 18)` of "@testando_1234play5like a virgin by madonna" blanks exactly "play". |
| ParserExamples.MaskAtEnd | test/tweet_parser_test.js:107-108 | Masking `[36, 43)` of the 43-character sample blanks exactly the trailing "madonna". |
| Text.MaskSpans | test/tweet_parser_test.js:112-128 | Masking a list of entity spans keeps the length and blanks exactly the positions covered by some span, wherever the offsets lie. |
| ParserProperties.MaskAddressed | test/tweet_parser_test.js:112-128 | In "@handle" + body, with no entity span reaching into the body, masking gives spaces for the address and the body unchanged. |
| Text.CoveredAppend | test/tweet_parser_test.js:112-128 | A position is covered by two span lists put together exactly when one of the lists covers it. |
| TweetParser.MaskAddress | test/tweet_parser_test.js:10-20 | The length is kept. A text that starts with "@handle" has exactly those characters blanked and the rest kept; any other text is returned unchanged. |
| TweetParser.MaskedText | test/tweet_parser_test.js:111-264 | The length is kept. A character is blanked exactly when it is part of the leading "@handle", or lies in a user-mention span naming the bot, a URL span or a hashtag span; every other character is kept. |
| ParserProperties.MaskAddressedTail | test/tweet_parser_test.js:187-221 | In "@handle" + body + tail, where one span is exactly the tail and none reaches into the body, masking gives spaces for the address, the body unchanged, and spaces for the tail. |
| Text.TrimPadded | test/tweet_parser_test.js:133-135 | `trim` removes exactly the outer whitespace: whitespace + s + whitespace trims to s when s has no outer whitespace. |
| Text.TrimFixpoint | test/tweet_parser_test.js:133-135 | `trim` returns its input exactly when the input has no outer whitespace. |
| Text.Trim | test/tweet_parser_test.js:133-135 | The result has no outer whitespace and is no longer than the input. |
| Text.TrimSlice | test/tweet_parser_test.js:133-135 | The result of `trim` is a slice of the input, and only whitespace lies before and after that slice. |
| Text.TrimAllSpace | test/tweet_parser_test.js:266-287 | `trim` returns the empty string exactly when the input is all whitespace. |
| Text.Split | test/tweet_parser_test.js:73-93 | Splitting on a separator gives at least one part, no part contains the separator, and joining the parts back gives the input. |
| Text.SplitJoin | test/tweet_parser_test.js:73-93 | Splitting undoes joining parts that do not contain the separator. |
| Text.BreakUnique | test/tweet_parser_test.js:27-93 | Splitting a URL at its first delimiter finds exactly the separator-free prefix and the rest. |
| Urls.ParseUrl | test/tweet_parser_test.js:27-93 | A URL that splits into parts yields parts that are well-formed: an http(s) scheme, a host free of '/', '?' and '#', and so on. |
| Urls.ParseFormat | test/tweet_parser_test.js:27-93 | Splitting the written form of well-formed URL parts gives those parts back. |
| Urls.FormatParse | test/tweet_parser_test.js:27-93 | The parts of a URL that splits, written back, are the URL up to its fragment. |
| Urls.Lookup | test/tweet_parser_test.js:37 | No value exactly when no pair has the name. Otherwise the value is that of some pair with the name, and no earlier pair has the name. |
| Urls.QueryParam | test/tweet_parser_test.js:37 | The same, over the `&`-separated pairs of a query string: no value exactly when no pair has the name, else the value of the first pair that has it. |
| Urls.LookupFirst | test/tweet_parser_test.js:37 | The query value of a name is that of its first pair; earlier pairs with other names are skipped. |
| Urls.QueryParamFirst | test/tweet_parser_test.js:37 | In a query `pre & name=value & post`, where no pair of `pre` is named `name`, the parameter `name` is `value`. |
| Urls.Extract | test/tweet_parser_test.js:27-93 | A found identifier is never empty. A query-parameter rule finds one only on its own path, and it is the parameter's value. A path rule finds one only when the path is the rule's prefix followed by the identifier's `/`-separated parts, as many as the rule takes and none of them empty. |
| Urls.Apply | test/tweet_parser_test.js:27-93 | No track exactly when no rule fires (host in the rule's list and an identifier found). Otherwise the track is what the first rule that fires makes of the URL. |
| Urls.ApplyRules | test/tweet_parser_test.js:27-93 | The host decides which single provider rule applies, and a URL on any other host resolves to nothing. |
| Urls.HostsDisjoint | test/tweet_parser_test.js:27-93 | No host belongs to two providers. |
| Urls.ResolveYouTube | test/tweet_parser_test.js:27-47 | An http(s) `watch` URL on a YouTube host resolves to YouTube with the value of its first `v` query parameter, whatever other pairs surround it. |
| Urls.ResolveSpotify | test/tweet_parser_test.js:50-70 | An http(s) `open.spotify.com/track/ID` URL resolves to Spotify with `ID`, the last path segment, whatever the query. |
| Urls.ResolveSoundCloud | test/tweet_parser_test.js:73-93 | An http(s) `/user/slug` URL on a SoundCloud host resolves to SoundCloud with the composite id `user/slug`, which keeps its inner slash. |
| Urls.ResolveUnknownHost | test/tweet_parser_test.js:27-93 | A URL whose host belongs to no provider resolves to nothing. |
| Urls.Resolve | test/tweet_parser_test.js:27-93 | A resolved track never has an empty id. |
| Urls.ResolveShape | test/tweet_parser_test.js:27-93 | A URL that resolves splits into parts, and its host and path fit the provider's rule: a YouTube host, path `/watch` and the id as the first `v` query value; `open.spotify.com` with path segments exactly `track` and the id; a SoundCloud host with exactly two non-empty segments joined by `/` into the id. So a provider host with any other path resolves to nothing. |
| TweetParser.FirstLink | test/tweet_parser_test.js:27-93 | The link is absent exactly when no URL entity resolves. Otherwise it is the track of the first URL entity that resolves. |
| TweetParser.Parse | test/tweet_parser_test.js:11-287 | The result is a LINK exactly when some URL entity resolves, and a LINK id is never empty. A TOKEN is a digit code. A SEARCH has a well-formed query and a non-empty query or URI list. |
| ParserProperties.LinkPrecedence | test/tweet_parser_test.js:73-93 | When some URL resolves, the result is the LINK of the first resolving URL, whatever the text, mentions, hashtags or handle. |
| ParserExamples.LinkTweet | test/tweet_parser_test.js:27-93 | A tweet whose one URL entity (at offsets [76, 97], past the end of the text) resolves is a LINK to that track. |
| ParserExamples.YouTubeLink | test/tweet_parser_test.js:27-47 | "@testando_123 play " with https://www.youtube.com/watch?v=wZZ7oFKsKzY is a LINK with youtube id "wZZ7oFKsKzY". |
| ParserExamples.SpotifyLink | test/tweet_parser_test.js:50-70 | "@testando_123 play " with http://open.spotify.com/track/4v0tapCyBcdyEbIpd1zZGU is a LINK with spotify id "4v0tapCyBcdyEbIpd1zZGU". |
| ParserExamples.SoundCloudLink | test/tweet_parser_test.js:73-93 | "@testando_123 play madonna" with https://soundcloud.com/lfcipriani/beastie-boys-i-dontt-know is a LINK with soundcloud id "lfcipriani/beastie-boys-i-dontt-know", not a SEARCH. |
| TweetParser.CommandBody | test/tweet_parser_test.js:111-185 | The body after the keyword carries no outer whitespace, and it is marked as keyword-led exactly when the trimmed text starts with the whole word `play`. |
| ParserProperties.CommandBodyKeyword | test/tweet_parser_test.js:111-185 | Whitespace, `play`, whitespace, a trimmed rest and trailing whitespace give a keyword-led body whose text is exactly that rest. |
| ParserProperties.CommandBodyPlain | test/tweet_parser_test.js:10-20 | A trimmed text that does not start with the word `play` is the body as it stands, without keyword. |
| TweetParser.FindBy | test/tweet_parser_test.js:111-185 | The position found is a standalone `by` with none before it. When nothing is found, the text has no standalone `by`. |
| TweetParser.Segment | test/tweet_parser_test.js:111-185 | The query parts are non-empty and trimmed, and an artist is present only when the text has a standalone `by`. |
| ParserProperties.SegmentQueryText | test/tweet_parser_test.js:111-185 | Segmenting the text of a query gives the query back: "any by artist" splits at its first standalone `by`, "by artist" has no `any`, and text without `by` has no artist. |
| ParserProperties.SegmentEmpty | test/tweet_parser_test.js:111-185 | A trimmed body segments to the empty query exactly when it is empty or the bare word `by`. |
| ParserProperties.NoBWithoutB | test/tweet_parser_test.js:112-160 | Text without the letter `b` has no standalone `by`, so "like a virgin" is kept whole as `any`. |
| ParserProperties.ClassifySearch | test/tweet_parser_test.js:111-185 | After the keyword, the text of a composable query, with a non-empty query or URI list, is the SEARCH for that query with those URIs. |
| ParserProperties.ParseSearch | test/tweet_parser_test.js:111-185 | "@handle play " + the text of a query, with no resolving URL and no entity span inside the body, is the SEARCH for exactly that query with the hashtag URIs. |
| ParserExamples.AddressedSearch | test/tweet_parser_test.js:111-185 | For the test handle and its mention entity, "play" + the text of a query is the SEARCH for that query with the hashtags' URIs. |
| ParserExamples.SearchTrackByArtist | test/tweet_parser_test.js:112-135 | "@testando_123 play like a virgin by madonna" is a SEARCH with `any` "like a virgin", `artist` "madonna" and no URIs. |
| ParserExamples.SearchTrackOnly | test/tweet_parser_test.js:137-160 | "@testando_123 play like a virgin" is a SEARCH with `any` "like a virgin" and no artist. |
| ParserExamples.SearchArtistOnly | test/tweet_parser_test.js:162-185 | "@testando_123 play by madonna" is a SEARCH with no `any` and `artist` "madonna". |
| Text.Lower | test/tweet_parser_test.js:206-213 | The result has the input's length, and each character is the ASCII lower-case form of the input's character at that place. |
| TweetParser.ProviderOfTag | test/tweet_parser_test.js:187-264 | A hashtag names a provider exactly when its lower-cased text is that provider's name. |
| ParserProperties.ProviderOfName | test/tweet_parser_test.js:187-264 | Each provider's own name is the hashtag for that provider. |
| TweetParser.HashtagUris | test/tweet_parser_test.js:187-264 | There is at most one URI per hashtag. |
| ParserProperties.HashtagUrisProviders | test/tweet_parser_test.js:187-264 | Every URI is the search URI, for the body, of the provider that some hashtag names. |
| TweetParser.SearchUri | test/tweet_parser_test.js:220-221 | A hashtag search URI begins with its provider's name. |
| ParserProperties.HashtagUrisAppend | test/tweet_parser_test.js:223-264 | The URIs of two consecutive hashtag lists are those of the first list followed by those of the second, so hashtag order is kept. |
| ParserProperties.HashtagUrisEmpty | test/tweet_parser_test.js:187-287 | There are no hashtag URIs exactly when no hashtag names a provider. |
| ParserExamples.SearchWithYouTubeTag | test/tweet_parser_test.js:187-221 | The sample with a #youtube hashtag at offsets [44, 52], past the end of the 43-character text, is a SEARCH with one URI, and that URI begins with "youtube". |
| ParserProperties.ParseSearchEntityTail | test/tweet_parser_test.js:187-221 | "@handle play " + the text of a query + " " + a tail that one entity span covers exactly (a hashtag, a URL or the bot's mention) is the SEARCH for that query alone: the tail is blanked. |
| ParserExamples.AddressedSearchTail | test/tweet_parser_test.js:187-221 | For the test handle, "play" + the text of a query + a tail covered by a hashtag span is the SEARCH for that query with the hashtags' URIs. |
| ParserExamples.SearchWithInlineTag | test/tweet_parser_test.js:187-221 | "@testando_123 play like a virgin #youtube", with the hashtag at [33, 41), is a SEARCH with `any` "like a virgin", no artist, and the one YouTube URI. |
| ParserExamples.SearchWithTwoTags | test/tweet_parser_test.js:223-264 | The sample with #youtube then #soundcloud is a SEARCH with exactly two URIs, the YouTube one first. |
| ParserProperties.ParseToken | test/tweet_parser_test.js:10-20 | "@handle " + a digit code, with no entity record at all, is the TOKEN for exactly that code. |
| TweetParser.IsCode | test/tweet_parser_test.js:10-20 | A code has no outer whitespace, does not start with the word `play`, and has no standalone `by`. |
| ParserProperties.ParseTokenExactly | test/tweet_parser_test.js:10-20 | The result is a TOKEN exactly when no URL resolves, no hashtag names a provider, and the masked body has no keyword and is a digit code. The TOKEN is that code. |
| ParserExamples.TokenRequest | test/tweet_parser_test.js:10-20 | "@testando_123 1234" with no entities is the TOKEN "1234". |
| TweetParser.Classify | test/tweet_parser_test.js:11-287 | The classification after the URL step is never a LINK. It is a TOKEN exactly when the body has no keyword, there are no hashtag URIs and the body is a digit code, and the TOKEN is that code. A SEARCH has a well-formed query and a non-empty query or URI list. |
| ParserProperties.ClassifyNone | test/tweet_parser_test.js:266-287 | After the URL step there is no command exactly when there are no URIs and the body is empty or the bare word `by`. |
| ParserProperties.ParseNone | test/tweet_parser_test.js:266-287 | The result is `null` exactly when no URL resolves, no hashtag names a provider, and the body after masking and the keyword is empty or the bare word `by`. |
| ParserProperties.ParseAddressOnly | test/tweet_parser_test.js:266-287 | A text that is only "@handle", with no resolving URL and no provider hashtag, gives `null`. |
| ParserExamples.AddressOnly | test/tweet_parser_test.js:266-287 | "@testando_123" with only its own mention entity gives `null`. |

## Left out

- `libs/tweet_parser.js` is not part of this model. The behaviour follows the test file's assertions and the repository's design description.
- Three rules the test file leaves open are choices of this model:
  - A TOKEN is a non-empty string of decimal digits. The only token in the tests is "1234", and the design description also allows letters. Digits only keep a one-word search such as "madonna" from reading as a TOKEN.
  - A body that is the bare word `by` segments to an empty query and gives no command. No test has such a body. The design description says any non-empty free text is actionable, but its own segmentation rule gives the same empty query.
  - An unresolvable URL or a hashtag that names no provider does not rule out a TOKEN: "@handle 1234 #hello" is the TOKEN "1234". The design's token step asks for no URL or hashtag entities at all; the model follows its dispatcher, which asks only that no URL resolves and no hashtag URI comes out.
- `libs/music_controller.js` (WebSocket player control, module-level state, replies to the platform) and configuration loading are I/O outside the parser. The bot handle is a parameter instead.
- User mentions of anyone other than the bot are not blanked: their text stays in the body. The design description's masker blanks mention spans in general. The tests only have the bot's own mention, so the two readings agree on them.
- The tweet's `user` and `id_str` fields are not read by the parser and are not modelled.
- TweetParser.SearchUri: the exact URI template is a placeholder (provider name, ":search:", term). The tests only check that each URI contains the provider name, so only that prefix is promised.
- Urls.ParseUrl: ports, user information, upper-case hosts, `youtu.be` short links and schemes other than http and https are not modelled; such URLs resolve to nothing.
- Urls.QueryParam: percent-encoded or `+`-encoded parameter values are not decoded; an id comes back as written (`v=a%2Db` gives "a%2Db", not "a-b").
- Urls.ResolveYouTube, Urls.ResolveSpotify, Urls.ResolveSoundCloud: stated for URLs in the written form `Format` produces, with no fragment. A URL with a fragment resolves by the same functions, but no lemma states it.
- Text.Lower: ASCII case folding only, which covers the provider names; Unicode case mapping is not modelled.
- Text.ReplaceWithSpaces: entity offsets count characters of a Dafny string (Unicode scalar values), while the platform counts code points and JavaScript counts UTF-16 units. These differ only for characters outside the Basic Multilingual Plane.
- ParserExamples: the tests check containment (`indexOf(...) != -1`) for the query parts and the URIs. The examples state equality, which implies it.
