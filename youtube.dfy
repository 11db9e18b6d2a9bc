/**
 * Turning what an operator typed into the YouTube ID a video entry is
 * stored with (AdminDashboard.js, the same code in handleCreateVideo and in
 * handleUpdateVideo). The input may be a bare ID, a `youtu.be/ID` short link
 * or a `youtube.com/watch?v=ID` link; only a candidate of exactly eleven
 * characters is accepted.
 */
module YouTube {
  import opened Outcomes
  import opened Text

  /**
   * What `new URL(text)` gives: the parts the resolver reads, or
   * Unparseable when the constructor throws. `query` maps each query
   * parameter name to its first value, which is what `searchParams.get`
   * returns. The parser itself is supplied by the caller.
   */
  datatype UrlParse = Unparseable | Url(hostname: string, pathname: string, query: map<string, string>)

  datatype IdError = InvalidUrlFormat | WrongLength

  datatype Resolution = Resolved(id: string) | Rejected(error: IdError)

  const ShortHost := "youtu.be"
  const LongHost := "youtube.com"
  const IdLength := 11

  /** The text shown for each rejection. */
  function ErrorText(e: IdError): string {
    match e
    case InvalidUrlFormat => "Invalid YouTube URL format"
    case WrongLength => "Invalid YouTube Video ID. Should be 11 characters."
  }

  /** The trimmed input names a YouTube host somewhere, so it is read as a URL. */
  predicate LooksLikeUrl(t: string) {
    Contains(t, LongHost) || Contains(t, ShortHost)
  }

  /** `s.split('?')[0]`: everything before the first question mark. */
  function BeforeQuery(s: string): (r: string)
    ensures |r| <= |s| && r == s[..|r|] && '?' !in r
    ensures |r| < |s| ==> s[|r|] == '?'
  {
    Split(s, '?')[0]
  }

  /** `pathname.slice(1)`: the path without its first character. */
  function DropFirst(s: string): string {
    if s == [] then [] else s[1..]
  }

  /**
   * The candidate ID before the length check, for an already trimmed `t`:
   * `t` itself unless it names a YouTube host; for a `youtu.be` URL the
   * first path segment; for a `*youtube.com*` host the `v` parameter,
   * falling back to `t` when `v` is absent or empty; for any other host
   * `t` again.
   */
  function Candidate(t: string, parse: string -> UrlParse): Resolution {
    if !LooksLikeUrl(t) then Resolved(t)
    else
      match parse(t)
      case Unparseable => Rejected(InvalidUrlFormat)
      case Url(host, path, query) =>
        if host == ShortHost then Resolved(BeforeQuery(DropFirst(path)))
        else if Contains(host, LongHost) then
          Resolved(if "v" in query && query["v"] != [] then query["v"] else t)
        else Resolved(t)
  }

  /** The ID stored for `input`, or the reason it is refused. */
  function ResolveYouTubeId(input: string, parse: string -> UrlParse): (r: Resolution)
    ensures r.Resolved? ==> |r.id| == IdLength
    ensures r.Resolved? ==> Candidate(Trim(input), parse) == r
    ensures r.Rejected? && r.error == WrongLength ==>
              Candidate(Trim(input), parse).Resolved? && |Candidate(Trim(input), parse).id| != IdLength
  {
    match Candidate(Trim(input), parse)
    case Rejected(e) => Rejected(e)
    case Resolved(id) => if |id| != IdLength then Rejected(WrongLength) else Resolved(id)
  }

  /** Input that names no YouTube host is its own candidate; the URL parser is never consulted. */
  lemma BareIdIsItsOwnCandidate(input: string, parse: string -> UrlParse, other: string -> UrlParse)
    requires !LooksLikeUrl(Trim(input))
    ensures ResolveYouTubeId(input, parse) ==
              if |Trim(input)| == IdLength then Resolved(Trim(input)) else Rejected(WrongLength)
    ensures ResolveYouTubeId(input, parse) == ResolveYouTubeId(input, other)
  {
  }

  /** A YouTube-looking input that the URL parser refuses is reported as a bad URL. */
  lemma UnparseableUrlIsRejected(input: string, parse: string -> UrlParse)
    requires LooksLikeUrl(Trim(input)) && parse(Trim(input)) == Unparseable
    ensures ResolveYouTubeId(input, parse) == Rejected(InvalidUrlFormat)
  {
  }

  /** A short link yields the path after its leading `/`, cut at the first `?`. */
  lemma ShortLinkYieldsPath(input: string, parse: string -> UrlParse, path: string, query: map<string, string>)
    requires LooksLikeUrl(Trim(input)) && parse(Trim(input)) == Url(ShortHost, path, query)
    ensures ResolveYouTubeId(input, parse) ==
              var id := BeforeQuery(DropFirst(path));
              if |id| == IdLength then Resolved(id) else Rejected(WrongLength)
  {
  }

  /** A long-form link with a non-empty `v` parameter yields that parameter. */
  lemma WatchLinkYieldsV(input: string, parse: string -> UrlParse, host: string, path: string, query: map<string, string>)
    requires LooksLikeUrl(Trim(input)) && parse(Trim(input)) == Url(host, path, query)
    requires host != ShortHost && Contains(host, LongHost)
    requires "v" in query && query["v"] != []
    ensures ResolveYouTubeId(input, parse) ==
              if |query["v"]| == IdLength then Resolved(query["v"]) else Rejected(WrongLength)
  {
  }

  /**
   * A long-form link without `v` falls back to the whole trimmed input,
   * and that is always refused for its length: the input holds
   * "youtube.com" (eleven characters) and, being an absolute URL, also the
   * `:` that ends its scheme.
   */
  lemma {:induction false} WatchLinkWithoutVIsRejected(input: string, parse: string -> UrlParse, host: string, path: string, query: map<string, string>)
    requires Contains(Trim(input), LongHost) && ':' in Trim(input)
    requires parse(Trim(input)) == Url(host, path, query)
    requires host != ShortHost && Contains(host, LongHost)
    requires "v" !in query || query["v"] == []
    ensures ResolveYouTubeId(input, parse) == Rejected(WrongLength)
  {
    ContainsWithExtraIsLonger(Trim(input), LongHost, ':');
  }

  /** A bare ID is accepted as it is. */
  lemma BareIdExample(parse: string -> UrlParse)
    ensures ResolveYouTubeId("dQw4w9WgXcQ", parse) == Resolved("dQw4w9WgXcQ")
  {
    BareIdIsNotUrl();
    assert Candidate("dQw4w9WgXcQ", parse) == Resolved("dQw4w9WgXcQ");
  }

  /** The bare ID is already trimmed and names no YouTube host. */
  lemma BareIdIsNotUrl()
    ensures Trim("dQw4w9WgXcQ") == "dQw4w9WgXcQ"
    ensures !LooksLikeUrl("dQw4w9WgXcQ")
  {
    var bare := "dQw4w9WgXcQ";
    assert !IsSpace(bare[0]);
    assert TrimStart(bare) == bare;
    assert !IsSpace(bare[10]);
    assert TrimEnd(bare) == bare;
    assert 'y' !in bare;
    NoYNoHost(bare);
  }

  /** A short link to that video resolves to its ID. */
  lemma ShortLinkExample(parse: string -> UrlParse)
    requires parse("https://youtu.be/dQw4w9WgXcQ") == Url("youtu.be", "/dQw4w9WgXcQ", map[])
    ensures ResolveYouTubeId("https://youtu.be/dQw4w9WgXcQ", parse) == Resolved("dQw4w9WgXcQ")
  {
    var link := "https://youtu.be/dQw4w9WgXcQ";
    ShortLinkIsUrl();
    assert DropFirst("/dQw4w9WgXcQ") == "dQw4w9WgXcQ";
    NoSeparatorSplit("dQw4w9WgXcQ", '?');
    assert Candidate(link, parse) == Resolved("dQw4w9WgXcQ");
  }

  /** The short link is already trimmed and names the short host. */
  lemma ShortLinkIsUrl()
    ensures Trim("https://youtu.be/dQw4w9WgXcQ") == "https://youtu.be/dQw4w9WgXcQ"
    ensures LooksLikeUrl("https://youtu.be/dQw4w9WgXcQ")
  {
    var link := "https://youtu.be/dQw4w9WgXcQ";
    assert !IsSpace(link[0]);
    assert TrimStart(link) == link;
    assert !IsSpace(link[|link| - 1]);
    assert TrimEnd(link) == link;
    assert link[8..16] == ShortHost;
    ContainsAt(link, ShortHost, 8);
  }

  /** A watch link with further parameters resolves to its `v` value. */
  lemma WatchLinkExample(parse: string -> UrlParse)
    requires parse("https://www.youtube.com" + "/watch?v=dQw4w9WgXcQ&t=10")
               == Url("www.youtube.com", "/watch", map["v" := "dQw4w9WgXcQ", "t" := "10"])
    ensures ResolveYouTubeId("https://www.youtube.com" + "/watch?v=dQw4w9WgXcQ&t=10", parse) == Resolved("dQw4w9WgXcQ")
  {
    var link := "https://www.youtube.com" + "/watch?v=dQw4w9WgXcQ&t=10";
    WatchLinkIsUrl();
    var host := "www.youtube.com";
    assert host[4..15] == LongHost;
    ContainsAt(host, LongHost, 4);
    assert host != ShortHost;
    assert Candidate(link, parse) == Resolved("dQw4w9WgXcQ");
  }

  /** The watch link is already trimmed and names the long host. */
  lemma WatchLinkIsUrl()
    ensures Trim("https://www.youtube.com" + "/watch?v=dQw4w9WgXcQ&t=10") == "https://www.youtube.com" + "/watch?v=dQw4w9WgXcQ&t=10"
    ensures LooksLikeUrl("https://www.youtube.com" + "/watch?v=dQw4w9WgXcQ&t=10")
  {
    var link := "https://www.youtube.com" + "/watch?v=dQw4w9WgXcQ&t=10";
    assert !IsSpace(link[0]);
    assert TrimStart(link) == link;
    assert !IsSpace(link[|link| - 1]);
    assert TrimEnd(link) == link;
    assert link[12..23] == LongHost;
    ContainsAt(link, LongHost, 12);
  }

  /** Five characters are too few. */
  lemma ShortInputExample(parse: string -> UrlParse)
    ensures ResolveYouTubeId("short", parse) == Rejected(WrongLength)
  {
    assert !IsSpace("short"[0]);
    assert TrimStart("short") == "short";
    assert !IsSpace("short"[4]);
    assert TrimEnd("short") == "short";
  }

  /** Both host names hold a 'y', so text without one names neither. */
  lemma NoYNoHost(s: string)
    requires 'y' !in s
    ensures !LooksLikeUrl(s)
  {
    if Contains(s, LongHost) {
      ContainsKeepsChars(s, LongHost);
    }
    if Contains(s, ShortHost) {
      ContainsKeepsChars(s, ShortHost);
    }
  }

  /** Every character of an occurring substring occurs in the string. */
  lemma {:induction false} ContainsKeepsChars(s: string, sub: string)
    requires Contains(s, sub)
    ensures forall c :: c in sub ==> c in s
  {
    if !StartsWith(s, sub) {
      ContainsKeepsChars(s[1..], sub);
    } else {
      assert forall c :: c in sub ==> c in s[..|sub|];
    }
  }

}
