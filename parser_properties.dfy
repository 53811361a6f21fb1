/**
 * What the tweet parser promises, stated over all inputs: the search
 * segmenter undoes composing a query, hashtag URIs keep hashtag order, a
 * resolving URL decides the command on its own, and the parser yields no
 * command exactly when nothing actionable is left.
 */
module ParserProperties {
  import opened Wrappers
  import opened Text
  import opened Urls
  import opened TweetParser

  // ---------------------------------------------------------------------------
  // Search segmentation
  // ---------------------------------------------------------------------------

  /** No standalone `by` anywhere in s. */
  predicate NoBy(s: string) {
    forall j :: 0 <= j < |s| ==> !ByAt(s, j)
  }

  /** A text without the letter b has no standalone `by`. */
  lemma NoBWithoutB(s: string)
    requires 'b' !in s
    ensures NoBy(s)
  {
    forall j | 0 <= j < |s| ensures s[j] != 'b' {
      assert s[j] in s;
    }
  }

  /** The queries the segmenter can produce from text: the `any` part has no standalone `by`. */
  predicate Composable(q: Query) {
    WellFormedQuery(q) && (q.any.Some? ==> NoBy(q.any.value))
  }

  /** The body a user writes for a query: "any by artist", with absent parts left out. */
  function QueryText(q: Query): string {
    match q
    case Query(Some(a), Some(b)) => a + " by " + b
    case Query(Some(a), None) => a
    case Query(None, Some(b)) => "by " + b
    case Query(None, None) => ""
  }

  lemma {:induction false} FindByAt(s: string, from: nat, i: nat)
    requires from <= i && ByAt(s, i)
    requires forall j :: from <= j < i ==> !ByAt(s, j)
    ensures FindBy(s, from) == Some(i)
    decreases i - from
  {
    if from < i {
      FindByAt(s, from + 1, i);
    }
  }

  /** A standalone `by` in a + " by " + b before the middle one would be one in a. */
  lemma NoByBeforeMiddle(a: string, b: string)
    requires NoBy(a)
    ensures forall j :: 0 <= j < |a| + 1 ==> !ByAt(a + " by " + b, j)
  {
    var s := a + " by " + b;
    forall j | 0 <= j < |a| + 1 ensures !ByAt(s, j) {
      if j + 2 <= |a| {
        assert s[j] == a[j] && s[j + 1] == a[j + 1];
        assert j > 0 ==> s[j - 1] == a[j - 1];
        assert j + 2 < |a| ==> s[j + 2] == a[j + 2];
        assert j + 2 == |a| ==> s[j + 2] == ' ';
        assert !ByAt(a, j);
      } else if j + 1 == |a| {
        assert s[j + 1] == ' ';
      } else {
        assert s[j] == ' ';
      }
    }
  }

  /**
   * Segmenting the text of a query gives the query back: "any by artist"
   * splits on its first standalone `by`, and an absent part stays absent.
   */
  lemma SegmentQueryText(q: Query)
    requires Composable(q)
    ensures Segment(QueryText(q)) == q
  {
    match q
    case Query(Some(a), Some(b)) =>
      SegmentBothParts(a, b);
    case Query(Some(a), None) =>
      TrimFixpoint(a);
    case Query(None, Some(b)) =>
      SegmentArtistOnly(b);
    case Query(None, None) =>
  }

  lemma SegmentBothParts(a: string, b: string)
    requires Composable(Query(Some(a), Some(b)))
    ensures Segment(a + " by " + b) == Query(Some(a), Some(b))
  {
    var s := a + " by " + b;
    NoByBeforeMiddle(a, b);
    FindByAt(s, 0, |a| + 1);
    assert s[..|a| + 1] == a + " " && s[|a| + 3..] == " " + b;
    TrimPadded([], a, " ");
    assert [] + a + " " == a + " ";
    TrimPadded(" ", b, []);
    assert " " + b + [] == " " + b;
  }

  lemma SegmentArtistOnly(b: string)
    requires Composable(Query(None, Some(b)))
    ensures Segment("by " + b) == Query(None, Some(b))
  {
    var s := "by " + b;
    ArtistTextShape(b);
    FindByAtStart(s);
    TrimFixpoint([]);
    TrimPadded(" ", b, []);
  }

  /** "by " + b: the keyword at its start, a space, then b. */
  lemma ArtistTextShape(b: string)
    ensures var s := "by " + b;
      && s[0] == 'b' && s[1] == 'y' && s[2] == ' ' && s[..0] == [] && s[2..] == " " + b + []
  {
    var s := "by " + b;
    assert s[..3] == "by ";
    assert s[2..] == s[2..3] + s[3..];
  }

  /** A standalone `by` at the very start is the first one. */
  lemma FindByAtStart(s: string)
    requires |s| >= 3 && s[0] == 'b' && s[1] == 'y' && !IsWordChar(s[2])
    ensures FindBy(s, 0) == Some(0)
  {
    assert ByAt(s, 0);
  }

  /**
   * A trimmed body yields an empty query exactly when it is empty or is the
   * bare word `by`.
   */
  lemma SegmentEmpty(s: string)
    requires IsTrimmed(s)
    ensures Segment(s) == NoQuery <==> s == "" || s == "by"
  {
    match FindBy(s, 0)
    case None =>
      TrimFixpoint(s);
    case Some(i) =>
      if i > 0 {
        assert !IsSpace(s[..i][0]);
        TrimAllSpace(s[..i]);
      }
      if i + 2 < |s| {
        var tail := s[i + 2..];
        assert !IsSpace(tail[|tail| - 1]);
        TrimAllSpace(tail);
      }
      if i == 0 && i + 2 == |s| {
        assert s == "by";
      }
  }

  // ---------------------------------------------------------------------------
  // Hashtags
  // ---------------------------------------------------------------------------

  /** A provider's own name, in any case, is its hashtag. */
  lemma ProviderOfName(p: Provider)
    ensures ProviderOfTag(Name(p)) == Some(p)
  {
    LowerOfLowerCase(Name(p));
    match p
    case YouTube =>
    case Spotify =>
      assert Name(Spotify)[0] != Name(YouTube)[0];
    case SoundCloud =>
      assert |Name(SoundCloud)| != |Name(YouTube)| && |Name(SoundCloud)| != |Name(Spotify)|;
  }

  /** Hashtag URIs of consecutive hashtag lists are consecutive: the order is kept. */
  lemma {:induction false} HashtagUrisAppend(a: seq<HashtagEntity>, b: seq<HashtagEntity>, term: string)
    ensures HashtagUris(a + b, term) == HashtagUris(a, term) + HashtagUris(b, term)
    decreases |a|
  {
    if a == [] {
      assert a + b == b;
    } else {
      assert (a + b)[0] == a[0];
      assert (a + b)[1..] == a[1..] + b;
      HashtagUrisCons(a + b, term);
      HashtagUrisCons(a, term);
      HashtagUrisAppend(a[1..], b, term);
    }
  }

  /** Every hashtag URI is the search URI, for the term, of a provider some hashtag names. */
  lemma {:induction false} HashtagUrisProviders(tags: seq<HashtagEntity>, term: string)
    ensures forall i :: 0 <= i < |HashtagUris(tags, term)| ==>
      exists k :: 0 <= k < |tags| && ProviderOfTag(tags[k].text).Some?
                  && HashtagUris(tags, term)[i] == SearchUri(ProviderOfTag(tags[k].text).value, term)
    decreases |tags|
  {
    if tags != [] {
      HashtagUrisProviders(tags[1..], term);
      var head := if ProviderOfTag(tags[0].text).Some? then [SearchUri(ProviderOfTag(tags[0].text).value, term)] else [];
      var uris := HashtagUris(tags, term);
      assert uris == head + HashtagUris(tags[1..], term);
      forall i | 0 <= i < |uris|
        ensures exists k :: 0 <= k < |tags| && ProviderOfTag(tags[k].text).Some?
                            && HashtagUris(tags, term)[i] == SearchUri(ProviderOfTag(tags[k].text).value, term)
      {
        if i < |head| {
          assert uris[i] == SearchUri(ProviderOfTag(tags[0].text).value, term);
        } else {
          var k :| 0 <= k < |tags[1..]| && ProviderOfTag(tags[1..][k].text).Some?
                   && HashtagUris(tags[1..], term)[i - |head|] == SearchUri(ProviderOfTag(tags[1..][k].text).value, term);
          assert tags[k + 1] == tags[1..][k];
        }
      }
    } else {
      assert HashtagUris(tags, term) == [];
    }
  }

  /** The URIs of a hashtag list are those of its first hashtag, then those of the rest. */
  lemma HashtagUrisCons(tags: seq<HashtagEntity>, term: string)
    requires tags != []
    ensures HashtagUris(tags, term) == HashtagUris([tags[0]], term) + HashtagUris(tags[1..], term)
  {
    HashtagUrisOne(tags[0], term);
  }

  /** One hashtag contributes its provider's search URI, or nothing. */
  lemma HashtagUrisOne(h: HashtagEntity, term: string)
    ensures HashtagUris([h], term) ==
      if ProviderOfTag(h.text).Some? then [SearchUri(ProviderOfTag(h.text).value, term)] else []
  {
    assert [h][1..] == [];
  }

  /** There are hashtag URIs exactly when some hashtag names a provider. */
  lemma {:induction false} HashtagUrisEmpty(tags: seq<HashtagEntity>, term: string)
    ensures HashtagUris(tags, term) == [] <==> forall k :: 0 <= k < |tags| ==> ProviderOfTag(tags[k].text).None?
    decreases |tags|
  {
    if tags != [] {
      HashtagUrisEmpty(tags[1..], term);
      assert forall k :: 1 <= k < |tags| ==> tags[k] == tags[1..][k - 1];
    }
  }

  // ---------------------------------------------------------------------------
  // The body of an addressed mention
  // ---------------------------------------------------------------------------

  /** Spans that leave the characters of [from, to) alone. */
  predicate SpansOutside(spans: seq<Span>, from: int, to: int) {
    forall k :: 0 <= k < |spans| ==> spans[k].end <= from || spans[k].start >= to || spans[k].end <= spans[k].start
  }

  /**
   * In a mention "@handle" + body, masking blanks the address and, as long as
   * no entity span reaches into the body, nothing else.
   */
  lemma MaskAddressed(handle: string, body: string, spans: seq<Span>)
    requires SpansOutside(spans, |handle| + 1, |handle| + 1 + |body|)
    ensures MaskSpans(MaskAddress(handle, "@" + handle + body), spans) == Spaces(|handle| + 1) + body
  {
    var text, n := "@" + handle + body, |handle| + 1;
    assert IsPrefix(Address(handle), text) by {
      assert text[..n] == Address(handle);
    }
    var m := MaskAddress(handle, text);
    var r, expected := MaskSpans(m, spans), Spaces(n) + body;
    forall i | 0 <= i < |text| ensures r[i] == expected[i] {
      if i >= n {
        OutsideNotCovered(spans, n, n + |body|, i);
        assert r[i] == m[i] == text[i];
      }
    }
  }

  /** A position inside [from, to) is covered by no span that leaves that range alone. */
  lemma OutsideNotCovered(spans: seq<Span>, from: int, to: int, i: int)
    requires SpansOutside(spans, from, to)
    requires from <= i < to
    ensures !Covered(spans, i)
  {
  }

  lemma {:induction false} TrimStartSkip(w: string, s: string)
    requires AllSpace(w)
    ensures TrimStart(w + s) == TrimStart(s)
    decreases |w|
  {
    if w == [] {
      assert w + s == s;
    } else {
      assert (w + s)[1..] == w[1..] + s;
      TrimStartSkip(w[1..], s);
    }
  }

  /** Blank space in front of a body does not change what the parser reads from it. */
  lemma CommandBodyAfterBlank(w: string, body: string)
    requires AllSpace(w)
    ensures CommandBody(w + body) == CommandBody(body)
  {
    TrimStartSkip(w, body);
  }

  /** A body that starts with the keyword: what follows it, trimmed, is the rest. */
  lemma CommandBodyKeyword(w1: string, w2: string, rest: string, w3: string)
    requires AllSpace(w1) && AllSpace(w2) && w2 != [] && IsTrimmed(rest) && AllSpace(w3)
    ensures CommandBody(w1 + Keyword + w2 + rest + w3) == Body(true, rest)
  {
    TrimKeywordLine(w1, w2, rest, w3);
    KeywordLineRest(w2, rest);
  }

  lemma TrimKeywordLine(w1: string, w2: string, rest: string, w3: string)
    requires AllSpace(w1) && AllSpace(w2) && IsTrimmed(rest) && AllSpace(w3)
    ensures Trim(w1 + Keyword + w2 + rest + w3) == if rest == [] then Keyword else Keyword + w2 + rest
  {
    var text := w1 + Keyword + w2 + rest + w3;
    if rest == [] {
      assert text == w1 + Keyword + (w2 + w3);
      assert AllSpace(w2 + w3);
      TrimPadded(w1, Keyword, w2 + w3);
    } else {
      assert text == w1 + (Keyword + w2 + rest) + w3;
      TrimPadded(w1, Keyword + w2 + rest, w3);
    }
  }

  lemma KeywordLineRest(w2: string, rest: string)
    requires AllSpace(w2) && w2 != [] && IsTrimmed(rest)
    ensures var s := if rest == [] then Keyword else Keyword + w2 + rest;
      StartsWithWord(s, Keyword) && Trim(s[|Keyword|..]) == rest
  {
    if rest == [] {
      assert Keyword[..4] == Keyword && Keyword[4..] == [];
      TrimFixpoint([]);
    } else {
      KeywordThenRest(w2, rest);
    }
  }

  lemma KeywordThenRest(w2: string, rest: string)
    requires AllSpace(w2) && w2 != [] && IsTrimmed(rest)
    ensures StartsWithWord(Keyword + w2 + rest, Keyword) && Trim((Keyword + w2 + rest)[|Keyword|..]) == rest
  {
    var s := Keyword + w2 + rest;
    assert s[..4] == Keyword;
    assert s[4] == w2[0] && IsSpace(w2[0]);
    assert s[4..] == w2 + rest + [];
    TrimPadded(w2, rest, []);
  }

  /** A trimmed body that does not start with the keyword is the rest as it stands. */
  lemma CommandBodyPlain(w1: string, s: string, w2: string)
    requires AllSpace(w1) && AllSpace(w2) && IsTrimmed(s) && !StartsWithWord(s, Keyword)
    ensures CommandBody(w1 + s + w2) == Body(false, s)
  {
    TrimPadded(w1, s, w2);
  }

  // ---------------------------------------------------------------------------
  // The parser
  // ---------------------------------------------------------------------------

  /**
   * URL precedence: once a URL entity resolves, the command is that LINK,
   * whatever the text, the hashtags or the bot's handle.
   */
  lemma LinkPrecedence(handle: string, t: Tweet, handle': string, t': Tweet)
    requires UrlsOf(t') == UrlsOf(t)
    requires FirstLink(UrlsOf(t)).Some?
    ensures Parse(handle, t) == Parse(handle', t')
    ensures Parse(handle, t) == Some(Link(FirstLink(UrlsOf(t)).value.provider, FirstLink(UrlsOf(t)).value.id))
  {
  }

  /**
   * The parser yields no command exactly when no URL resolves, no hashtag
   * names a provider, and the body is empty or the bare word `by`.
   */
  lemma ParseNone(handle: string, t: Tweet)
    ensures Parse(handle, t) == None <==>
      && (forall k :: 0 <= k < |UrlsOf(t)| ==> Resolve(UrlsOf(t)[k].expandedUrl).None?)
      && (forall k :: 0 <= k < |HashtagsOf(t)| ==> ProviderOfTag(HashtagsOf(t)[k].text).None?)
      && (CommandBody(MaskedText(handle, t)).rest in {"", "by"})
  {
    var body := CommandBody(MaskedText(handle, t));
    var uris := HashtagUris(HashtagsOf(t), body.rest);
    HashtagUrisEmpty(HashtagsOf(t), body.rest);
    ClassifyNone(body, uris);
    if FirstLink(UrlsOf(t)).Some? {
      assert Parse(handle, t).Some?;
    } else {
      assert Parse(handle, t) == Classify(body, uris);
    }
  }

  /** After the URL step, no command is left exactly for an empty or bare-`by` body without URIs. */
  lemma ClassifyNone(body: Body, uris: seq<string>)
    requires IsTrimmed(body.rest)
    ensures Classify(body, uris) == None <==> uris == [] && body.rest in {"", "by"}
  {
    SegmentEmpty(body.rest);
    assert !IsCode("by") by {
      assert !IsDigit("by"[0]);
    }
  }

  /**
   * The parser reads the body of "@handle" + body as it stands, when no
   * entity span reaches into the body.
   */
  lemma AddressedBody(handle: string, body: string, t: Tweet)
    requires t.text == "@" + handle + body
    requires SpansOutside(EntitySpans(handle, t), |handle| + 1, |t.text|)
    ensures CommandBody(MaskedText(handle, t)) == CommandBody(body)
  {
    MaskAddressed(handle, body, EntitySpans(handle, t));
    CommandBodyAfterBlank(Spaces(|handle| + 1), body);
  }

  /** Without a resolving URL, the parser classifies the masked body. */
  lemma ParseWithoutLink(handle: string, t: Tweet, body: Body)
    requires forall k :: 0 <= k < |UrlsOf(t)| ==> Resolve(UrlsOf(t)[k].expandedUrl).None?
    requires body == CommandBody(MaskedText(handle, t))
    ensures Parse(handle, t) == Classify(body, HashtagUris(HashtagsOf(t), body.rest))
  {
  }

  /** Without entities, masking "@handle " + code blanks the address alone. */
  lemma TokenMasked(handle: string, code: string)
    ensures MaskedText(handle, Tweet("@" + handle + " " + code, None)) == Spaces(|handle| + 1) + " " + code + []
  {
    assert "@" + handle + " " + code == "@" + handle + (" " + code);
    MaskAddressed(handle, " " + code, []);
  }

  /**
   * The parser yields a TOKEN exactly when no URL resolves, no hashtag names a
   * provider, and the masked body has no keyword and is a digit code; the
   * TOKEN is that code.
   */
  lemma ParseTokenExactly(handle: string, t: Tweet)
    ensures var r := Parse(handle, t); var body := CommandBody(MaskedText(handle, t));
      && ((r.Some? && r.value.Token?) <==>
            && (forall k :: 0 <= k < |UrlsOf(t)| ==> Resolve(UrlsOf(t)[k].expandedUrl).None?)
            && (forall k :: 0 <= k < |HashtagsOf(t)| ==> ProviderOfTag(HashtagsOf(t)[k].text).None?)
            && !body.keyword && IsCode(body.rest))
      && (r.Some? && r.value.Token? ==> r.value.code == body.rest)
  {
    var body := CommandBody(MaskedText(handle, t));
    var uris := HashtagUris(HashtagsOf(t), body.rest);
    if FirstLink(UrlsOf(t)).None? {
      ParseWithoutLink(handle, t, body);
      HashtagUrisEmpty(HashtagsOf(t), body.rest);
    }
  }

  /** A mention whose body is a bare code, with no entities at all, is that TOKEN. */
  lemma ParseToken(handle: string, code: string)
    requires IsCode(code)
    ensures Parse(handle, Tweet("@" + handle + " " + code, None)) == Some(Token(code))
  {
    var t := Tweet("@" + handle + " " + code, None);
    var blank := Spaces(|handle| + 1) + " ";
    TokenMasked(handle, code);
    assert CommandBody(MaskedText(handle, t)) == Body(false, code) by {
      assert forall i :: 0 <= i < |code| ==> !IsSpace(code[i]);
      assert !StartsWithWord(code, Keyword) by {
        assert code[0] != Keyword[0];
      }
      CommandBodyPlain(blank, code, []);
    }
    ParseWithoutLink(handle, t, Body(false, code));
  }

  /**
   * A mention "@handle play <query text>" whose entities stay clear of the
   * body and whose URLs do not resolve is the SEARCH for that query, with
   * one URI per provider hashtag in hashtag order.
   */
  lemma ParseSearch(handle: string, q: Query, t: Tweet)
    requires Composable(q)
    requires t.text == "@" + handle + " play " + QueryText(q)
    requires SpansOutside(EntitySpans(handle, t), |handle| + 1, |t.text|)
    requires forall k :: 0 <= k < |UrlsOf(t)| ==> Resolve(UrlsOf(t)[k].expandedUrl).None?
    requires q != NoQuery || HashtagUris(HashtagsOf(t), QueryText(q)) != []
    ensures Parse(handle, t) == Some(Search(q, HashtagUris(HashtagsOf(t), QueryText(q))))
  {
    SearchBody(handle, q, t);
    ParseWithoutLink(handle, t, Body(true, QueryText(q)));
    ClassifySearch(q, HashtagUris(HashtagsOf(t), QueryText(q)));
  }

  /**
   * Entity text after the query is blanked: in "@handle play <query> <tail>",
   * where some entity span (a URL, a hashtag or the bot's mention) is exactly
   * the tail and no span reaches into the rest, the parser reads the query alone.
   */
  lemma ParseSearchEntityTail(handle: string, q: Query, tail: string, t: Tweet)
    requires Composable(q)
    requires t.text == "@" + handle + " play " + QueryText(q) + " " + tail
    requires Span(|t.text| - |tail|, |t.text|) in EntitySpans(handle, t)
    requires SpansOutside(EntitySpans(handle, t), |handle| + 1, |t.text| - |tail|)
    requires forall k :: 0 <= k < |UrlsOf(t)| ==> Resolve(UrlsOf(t)[k].expandedUrl).None?
    requires q != NoQuery || HashtagUris(HashtagsOf(t), QueryText(q)) != []
    ensures Parse(handle, t) == Some(Search(q, HashtagUris(HashtagsOf(t), QueryText(q))))
  {
    TailBody(handle, q, tail, t);
    ParseWithoutLink(handle, t, Body(true, QueryText(q)));
    ClassifySearch(q, HashtagUris(HashtagsOf(t), QueryText(q)));
  }

  /** The masked text of "@handle play <query> <tail>", the tail blanked, is the keyword line of that query. */
  lemma TailBody(handle: string, q: Query, tail: string, t: Tweet)
    requires WellFormedQuery(q)
    requires t.text == "@" + handle + " play " + QueryText(q) + " " + tail
    requires Span(|t.text| - |tail|, |t.text|) in EntitySpans(handle, t)
    requires SpansOutside(EntitySpans(handle, t), |handle| + 1, |t.text| - |tail|)
    ensures CommandBody(MaskedText(handle, t)) == Body(true, QueryText(q))
  {
    var body := " play " + QueryText(q) + " ";
    assert t.text == "@" + handle + body + tail;
    MaskAddressedTail(handle, body, tail, EntitySpans(handle, t));
    PlayBodyPadded(Spaces(|handle| + 1), q, Spaces(|tail|));
  }

  lemma PlayBodyPadded(w1: string, q: Query, w3: string)
    requires WellFormedQuery(q) && AllSpace(w1) && AllSpace(w3)
    ensures CommandBody(w1 + (" play " + QueryText(q) + " ") + w3) == Body(true, QueryText(q))
  {
    assert w1 + (" play " + QueryText(q) + " ") + w3 == (w1 + " ") + Keyword + " " + QueryText(q) + (" " + w3);
    QueryTextTrimmed(q);
    CommandBodyKeyword(w1 + " ", " ", QueryText(q), " " + w3);
  }

  /**
   * In "@handle" + body + tail, where one span is exactly the tail and none
   * reaches into the body, masking blanks the address and the tail only.
   */
  lemma MaskAddressedTail(handle: string, body: string, tail: string, spans: seq<Span>)
    requires Span(|handle| + 1 + |body|, |handle| + 1 + |body| + |tail|) in spans
    requires SpansOutside(spans, |handle| + 1, |handle| + 1 + |body|)
    ensures MaskSpans(MaskAddress(handle, "@" + handle + body + tail), spans)
         == Spaces(|handle| + 1) + body + Spaces(|tail|)
  {
    var text, n, m := "@" + handle + body + tail, |handle| + 1, |handle| + 1 + |body|;
    assert IsPrefix(Address(handle), text) by {
      assert text[..n] == Address(handle);
    }
    var k :| 0 <= k < |spans| && spans[k] == Span(m, m + |tail|);
    var masked := MaskAddress(handle, text);
    var r, expected := MaskSpans(masked, spans), Spaces(n) + body + Spaces(|tail|);
    forall i | 0 <= i < |text| ensures r[i] == expected[i] {
      if n <= i < m {
        OutsideNotCovered(spans, n, m, i);
        assert r[i] == masked[i] == text[i];
      } else if m <= i {
        assert InSpan(spans[k], i);
      }
    }
  }

  /** The masked text of "@handle play <query>" is the keyword line of that query. */
  lemma SearchBody(handle: string, q: Query, t: Tweet)
    requires WellFormedQuery(q)
    requires t.text == "@" + handle + " play " + QueryText(q)
    requires SpansOutside(EntitySpans(handle, t), |handle| + 1, |t.text|)
    ensures CommandBody(MaskedText(handle, t)) == Body(true, QueryText(q))
  {
    var body := " play " + QueryText(q);
    assert t.text == "@" + handle + body;
    AddressedBody(handle, body, t);
    PlayBody(q);
  }

  lemma PlayBody(q: Query)
    requires WellFormedQuery(q)
    ensures CommandBody(" play " + QueryText(q)) == Body(true, QueryText(q))
  {
    assert " play " + QueryText(q) == " " + Keyword + " " + QueryText(q) + [];
    QueryTextTrimmed(q);
    CommandBodyKeyword(" ", " ", QueryText(q), []);
  }

  /** After the keyword, the text of a query with its URIs is that SEARCH. */
  lemma ClassifySearch(q: Query, uris: seq<string>)
    requires Composable(q)
    requires q != NoQuery || uris != []
    ensures Classify(Body(true, QueryText(q)), uris) == Some(Search(q, uris))
  {
    SegmentQueryText(q);
  }

  lemma QueryTextTrimmed(q: Query)
    requires WellFormedQuery(q)
    ensures IsTrimmed(QueryText(q))
  {
  }

  /**
   * A mention that is only the address, with URLs that do not resolve and
   * no provider hashtag, is no command.
   */
  lemma ParseAddressOnly(handle: string, t: Tweet)
    requires t.text == "@" + handle
    requires forall k :: 0 <= k < |UrlsOf(t)| ==> Resolve(UrlsOf(t)[k].expandedUrl).None?
    requires forall k :: 0 <= k < |HashtagsOf(t)| ==> ProviderOfTag(HashtagsOf(t)[k].text).None?
    ensures Parse(handle, t) == None
  {
    var masked := MaskedText(handle, t);
    assert AllSpace(masked) by {
      assert t.text[..|handle| + 1] == Address(handle);
      forall i | 0 <= i < |masked| ensures IsSpace(masked[i]) {
        assert MaskAddress(handle, t.text)[i] == ' ';
      }
    }
    TrimAllSpace(masked);
    ParseNone(handle, t);
  }
}
