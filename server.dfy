/** `server.js`: the process-wide cookie session (`cookiesHeader`,
    `cookiesReady`) and its refresh from the cookie service, the readiness
    guard and request of `fetchPlayerResponse`, and the decision procedure of
    the `GET /streams/:id` handler.

    The outbound HTTP calls, `JSON.parse` and the decipher library are
    parameters: a refresh receives the outcome of the cookie request as a value,
    and the handler receives the watch-page fetch, the JSON parser and the
    decipher step as functions. */
module Server {
  import opened Results
  import opened Text
  import opened PlayerResponse

  // ---------------------------------------------------------------------------
  // Cookie refresh (server.js:9-31)

  /** One element of the cookie service's list, with `name` and `value` as the
      strings a template literal renders them to. */
  datatype UpstreamCookie = UpstreamCookie(name: string, value: string)

  /** The shape of the cookie service's JSON body (`resp.data`), as far as the
      refresh distinguishes it: a falsy value, an array, an object whose
      `cookies` member is an array (`Some`) or is not (`None`), or any other
      truthy value. */
  datatype CookiesBody =
    | Falsy
    | JsonArray(items: seq<UpstreamCookie>)
    | JsonObject(cookies: Option<seq<UpstreamCookie>>)
    | OtherTruthy

  /** The outcome of the cookie request: it threw, or it returned a body. */
  datatype CookiesFetch = RequestFailed(message: string) | Received(data: CookiesBody)

  /** The message of the Error thrown for any other shape (server.js:25). */
  const InvalidResponseMessage: string := "Invalid cookies API response"

  /** The cookie list a refresh accepts: `{cookies: [...]}` is tried first, then
      a bare array; every other outcome is rejected. */
  function AcceptedCookies(f: CookiesFetch): (r: Option<seq<UpstreamCookie>>)
    ensures r.Some? <==> f.Received? && (f.data.JsonArray? || (f.data.JsonObject? && f.data.cookies.Some?))
    ensures r.Some? && f.data.JsonObject? ==> r == f.data.cookies
    ensures r.Some? && f.data.JsonArray? ==> r == Some(f.data.items)
  {
    match f
    case RequestFailed(_) => None
    case Received(data) =>
      if data.JsonObject? && data.cookies.Some? then data.cookies
      else if data.JsonArray? then Some(data.items)
      else None
  }

  /** `` `${c.name}=${c.value}` `` */
  function CookiePair(c: UpstreamCookie): string {
    c.name + "=" + c.value
  }

  function CookiePairs(cs: seq<UpstreamCookie>): (ps: seq<string>)
    ensures |ps| == |cs| && forall i :: 0 <= i < |cs| ==> ps[i] == CookiePair(cs[i])
  {
    seq(|cs|, i requires 0 <= i < |cs| => CookiePair(cs[i]))
  }

  /** `cookies.map(c => `${c.name}=${c.value}`).join('; ')`: the upstream
      cookies in upstream order, and nothing else (no consent cookie is added). */
  function CookieHeader(cs: seq<UpstreamCookie>): string {
    Join(CookiePairs(cs), "; ")
  }

  /** A value of the two module-level cells. */
  datatype Session = Session(header: string, ready: bool)

  /** The cells before the first refresh completes (server.js:9-10). */
  const InitialSession: Session := Session("", false)

  /** The effect of one `fetchRemoteCookies` call. A success replaces the header
      and sets readiness; a failure of any kind clears readiness (even if it was
      set) and keeps the previous header, because the Error is thrown and caught
      before any assignment to `cookiesHeader`. */
  function Refreshed(s: Session, f: CookiesFetch): (t: Session)
    ensures t.ready <==> AcceptedCookies(f).Some?
    ensures t.ready ==> t.header == CookieHeader(AcceptedCookies(f).value)
    ensures !t.ready ==> t.header == s.header
  {
    match AcceptedCookies(f)
    case Some(cs) => Session(CookieHeader(cs), true)
    case None => s.(ready := false)
  }

  /** The cells of `server.js`, updated in place by `fetchRemoteCookies`. */
  class SessionCell {
    var cookiesHeader: string
    var cookiesReady: bool

    function Snapshot(): Session
      reads this
    {
      Session(cookiesHeader, cookiesReady)
    }

    constructor ()
      ensures Snapshot() == InitialSession
    {
      cookiesHeader := "";
      cookiesReady := false;
    }

    /** `fetchRemoteCookies`, given the outcome of its request. */
    method FetchRemoteCookies(f: CookiesFetch)
      modifies this
      ensures Snapshot() == Refreshed(old(Snapshot()), f)
      ensures cookiesReady <==> AcceptedCookies(f).Some?
      ensures !cookiesReady ==> cookiesHeader == old(cookiesHeader)
    {
      match f {
        case RequestFailed(_) =>
          cookiesReady := false;
        case Received(data) =>
          if data.JsonObject? && data.cookies.Some? {
            cookiesHeader := CookieHeader(data.cookies.value);
            cookiesReady := true;
          } else if data.JsonArray? {
            cookiesHeader := CookieHeader(data.items);
            cookiesReady := true;
          } else {
            // throw new Error(InvalidResponseMessage), caught by the handler below
            cookiesReady := false;
          }
      }
    }
  }

  /** The cells after a series of refreshes (the startup call and then one per
      timer tick, server.js:34-35), in order. */
  function AfterRefreshes(s: Session, fs: seq<CookiesFetch>): (r: Session)
    ensures fs != [] ==> (r.ready <==> AcceptedCookies(fs[|fs| - 1]).Some?)
  {
    if fs == [] then s
    else Refreshed(AfterRefreshes(s, fs[..|fs| - 1]), fs[|fs| - 1])
  }

  /** The cookie list of the last accepted refresh in the series, if any. */
  function LastAccepted(fs: seq<CookiesFetch>): Option<seq<UpstreamCookie>>
  {
    if fs == [] then None
    else if AcceptedCookies(fs[|fs| - 1]).Some? then AcceptedCookies(fs[|fs| - 1])
    else LastAccepted(fs[..|fs| - 1])
  }

  /** After a series of refreshes the session is ready exactly when the last
      refresh succeeded, and the header is the one built by the last successful
      refresh, or the initial header when none succeeded. */
  lemma {:induction false} AfterRefreshesState(s: Session, fs: seq<CookiesFetch>)
    ensures AfterRefreshes(s, fs).ready <==> (if fs == [] then s.ready else AcceptedCookies(fs[|fs| - 1]).Some?)
    ensures AfterRefreshes(s, fs).header ==
            (match LastAccepted(fs) case Some(cs) => CookieHeader(cs) case None => s.header)
  {
    if fs != [] {
      AfterRefreshesState(s, fs[..|fs| - 1]);
    }
  }

  /** Readiness is not monotonic: a failed refresh of a ready session makes it
      not ready. */
  lemma ReadinessNotMonotonic()
    ensures exists s: Session, f: CookiesFetch :: s.ready && !Refreshed(s, f).ready
  {
    var s := Session("A=1", true);
    assert !Refreshed(s, Received(OtherTruthy)).ready;
  }

  /** Repeating a refresh with the same outcome changes nothing further. */
  lemma RefreshIdempotent(s: Session, f: CookiesFetch)
    ensures Refreshed(Refreshed(s, f), f) == Refreshed(s, f)
  {
  }

  /** `" " + Join(ps, "; ")` is the `;`-join of the pieces each prefixed by a space. */
  lemma {:induction false} SpacedJoin(ps: seq<string>)
    requires |ps| >= 1
    ensures " " + Join(ps, "; ") == Join(seq(|ps|, i requires 0 <= i < |ps| => " " + ps[i]), ";")
  {
    var padded := seq(|ps|, i requires 0 <= i < |ps| => " " + ps[i]);
    if |ps| > 1 {
      var tail := ps[1..];
      var paddedTail := seq(|tail|, i requires 0 <= i < |tail| => " " + tail[i]);
      SpacedJoin(tail);
      assert padded[1..] == paddedTail;
      assert " " + Join(ps, "; ") == (" " + ps[0]) + ";" + (" " + Join(tail, "; "));
    }
  }

  /** When no name or value contains `;`, splitting the header on `;` gives one
      piece per upstream cookie, in order: the first pair as it is, each later
      pair after the space of its `'; '` separator. So the header holds exactly
      the upstream cookies and no other. */
  lemma HeaderSplitsIntoPairs(cs: seq<UpstreamCookie>)
    requires |cs| >= 1
    requires forall i :: 0 <= i < |cs| ==> ';' !in cs[i].name && ';' !in cs[i].value
    ensures var parts := Split(CookieHeader(cs), ';');
            && |parts| == |cs|
            && parts[0] == CookiePair(cs[0])
            && forall i :: 1 <= i < |cs| ==> parts[i] == " " + CookiePair(cs[i])
  {
    var ps := CookiePairs(cs);
    var pieces := [ps[0]] + seq(|cs| - 1, i requires 0 <= i < |cs| - 1 => " " + ps[i + 1]);
    if |cs| > 1 {
      var tail := ps[1..];
      SpacedJoin(tail);
      assert seq(|tail|, i requires 0 <= i < |tail| => " " + tail[i]) == pieces[1..];
      assert Join(ps, "; ") == Join(pieces, ";");
    }
    forall k | 0 <= k < |pieces| ensures ';' !in pieces[k] {
      assert k > 0 ==> pieces[k] == " " + ps[k];
    }
    SplitOfJoin(pieces, ';');
  }

  // ---------------------------------------------------------------------------
  // Watch-page request and extraction (server.js:37-57)

  const NotReadyMessage: string := "Cookies not loaded yet, please try again in a moment."
  const PayloadNotFoundMessage: string := "ytInitialPlayerResponse not found"
  const WatchUrlPrefix: string := "https://m.youtube.com/watch?v="
  const MobileUserAgent: string :=
    "Mozilla/5.0 (Linux; Android 10; Mobile) AppleWebKit/537.36 (KHTML, like Gecko) Chrome/119.0.0.0 Mobile Safari/537.36"
  const MobileReferer: string := "https://m.youtube.com/"

  /** The request `fetchPlayerResponse` hands to `axios.get`. */
  datatype WatchRequest = WatchRequest(url: string, userAgent: string, referer: string, cookie: string)

  /** The watch-page request for `videoId`, carrying the session's header verbatim. */
  function WatchRequestFor(videoId: string, s: Session): (q: WatchRequest)
    ensures q.cookie == s.header
    ensures StartsWith(q.url, WatchUrlPrefix) && q.url[|WatchUrlPrefix|..] == videoId
    ensures q.userAgent == MobileUserAgent && q.referer == MobileReferer
  {
    WatchRequest(WatchUrlPrefix + videoId, MobileUserAgent, MobileReferer, s.header)
  }

  /** `extractPlayerResponse`: the capture of the expression, parsed as JSON
      by `parse` (whose own errors propagate); an Error when there is no match. */
  function ExtractPlayerResponse(html: string, parse: string -> Result<PlayerDoc>): (r: Result<PlayerDoc>)
    ensures ScanPayload(html).None? ==> r == Err(PayloadNotFoundMessage)
    ensures ScanPayload(html).Some? ==> r == parse(ScanPayload(html).value)
  {
    match ScanPayload(html)
    case None => Err(PayloadNotFoundMessage)
    case Some(payload) => parse(payload)
  }

  /** `fetchPlayerResponse`: refuses before building any request when the
      session is not ready; otherwise fetches the page with `page` (whose
      errors propagate) and extracts the player response. */
  function FetchPlayerResponse(s: Session, videoId: string, page: WatchRequest -> Result<string>,
                               parse: string -> Result<PlayerDoc>): (r: Result<PlayerDoc>)
    ensures !s.ready ==> r == Err(NotReadyMessage)
    ensures s.ready && page(WatchRequestFor(videoId, s)).Err? ==> r == Err(page(WatchRequestFor(videoId, s)).error)
    ensures s.ready && page(WatchRequestFor(videoId, s)).Ok? ==>
              r == ExtractPlayerResponse(page(WatchRequestFor(videoId, s)).value, parse)
  {
    if !s.ready then Err(NotReadyMessage)
    else
      match page(WatchRequestFor(videoId, s))
      case Err(m) => Err(m)
      case Ok(html) => ExtractPlayerResponse(html, parse)
  }

  // ---------------------------------------------------------------------------
  // GET /streams/:id (server.js:65-103)

  const PlayerOrigin: string := "https://www.youtube.com"
  /** "https://www.youtube.com/s/player/69b31e11/player-plasma-ias-tablet-en_US.vflset/base.js" */
  const FallbackPlayerUrl: string := PlayerOrigin + "/s/player/69b31e11/player-plasma-ias-tablet-en_US.vflset/base.js"
  const NoStreamingDataMessage: string := "No streamingData found in player response."

  /** The `html5player` URL: the document's `assets.js` on the platform origin
      when it is truthy, the fixed fallback otherwise. */
  function PlayerScriptUrl(doc: PlayerDoc): (u: string)
    ensures StartsWith(u, PlayerOrigin)
    ensures Truthy(doc.assetsJs) ==> u[|PlayerOrigin|..] == doc.assetsJs.value
    ensures !Truthy(doc.assetsJs) ==> u == FallbackPlayerUrl
  {
    if Truthy(doc.assetsJs) then PlayerOrigin + doc.assetsJs.value
    else FallbackPlayerUrl
  }

  /** A JSON response body: `{error}` or `{videoId, title, formats}`. */
  datatype Body<D> = ErrorBody(error: string) | StreamsBody(videoId: string, title: Option<string>, formats: D)

  datatype Response<D> = Response(status: int, body: Body<D>)

  /** The `/streams/:id` handler. `decipher` stands for `sig.decipherFormats`,
      whose output `D` is passed through untouched; any Error thrown after the
      readiness check becomes a 500 carrying its message. */
  function HandleStreams<D>(s: Session, videoId: string, page: WatchRequest -> Result<string>,
                            parse: string -> Result<PlayerDoc>,
                            decipher: (seq<Format>, string) -> Result<D>): (r: Response<D>)
    ensures r.status in {200, 404, 500, 503}
    ensures r.status == 503 <==> !s.ready
    ensures r.status == 503 ==> r.body == ErrorBody(NotReadyMessage)
    ensures r.status == 200 <==> r.body.StreamsBody?
    ensures r.status == 200 ==> r.body.videoId == videoId
  {
    if !s.ready then Response(503, ErrorBody(NotReadyMessage))
    else
      match FetchPlayerResponse(s, videoId, page, parse)
      case Err(m) => Response(500, ErrorBody(m))
      case Ok(doc) =>
        match doc.streamingData
        case None => Response(404, ErrorBody(NoStreamingDataMessage))
        case Some(sd) =>
          match decipher(AllFormats(sd), PlayerScriptUrl(doc))
          case Err(m) => Response(500, ErrorBody(m))
          case Ok(deciphered) => Response(200, StreamsBody(videoId, doc.title, deciphered))
  }

  /** A 200 response carries the decipher output verbatim, computed from the
      concatenated formats of the fetched document and its player script URL,
      together with the document's title. */
  lemma SuccessCarriesDecipherOutput<D>(s: Session, videoId: string, page: WatchRequest -> Result<string>,
                                        parse: string -> Result<PlayerDoc>,
                                        decipher: (seq<Format>, string) -> Result<D>)
    requires HandleStreams(s, videoId, page, parse, decipher).status == 200
    ensures var r := HandleStreams(s, videoId, page, parse, decipher);
            var doc := FetchPlayerResponse(s, videoId, page, parse);
            && doc.Ok? && doc.value.streamingData.Some?
            && decipher(AllFormats(doc.value.streamingData.value), PlayerScriptUrl(doc.value)) == Ok(r.body.formats)
            && r.body.title == doc.value.title
  {
  }

  /** The status is 404 exactly when the fetched document has no `streamingData`,
      and then the body carries the fixed message; it is 500 exactly when the
      fetch, the extraction, the parse or the decipher step threw, and then the
      body carries that error's message. */
  lemma StatusMapping<D>(s: Session, videoId: string, page: WatchRequest -> Result<string>,
                         parse: string -> Result<PlayerDoc>,
                         decipher: (seq<Format>, string) -> Result<D>)
    requires s.ready
    ensures var r := HandleStreams(s, videoId, page, parse, decipher);
            var doc := FetchPlayerResponse(s, videoId, page, parse);
            && (r.status == 404 <==> doc.Ok? && doc.value.streamingData.None?)
            && (r.status == 500 <==>
                  (doc.Err? || (doc.value.streamingData.Some? &&
                     decipher(AllFormats(doc.value.streamingData.value), PlayerScriptUrl(doc.value)).Err?)))
            && (r.status == 404 ==> r.body == ErrorBody(NoStreamingDataMessage))
            && (doc.Err? ==> r.body == ErrorBody(doc.error))
            && (doc.Ok? && doc.value.streamingData.Some? &&
                decipher(AllFormats(doc.value.streamingData.value), PlayerScriptUrl(doc.value)).Err? ==>
                  r.body == ErrorBody(decipher(AllFormats(doc.value.streamingData.value), PlayerScriptUrl(doc.value)).error))
  {
  }

  /** A watch page without the embedded assignment is a 500 carrying the
      extraction error, not a 404. */
  lemma MissingPayloadIs500<D>(s: Session, videoId: string, html: string, page: WatchRequest -> Result<string>,
                               parse: string -> Result<PlayerDoc>,
                               decipher: (seq<Format>, string) -> Result<D>)
    requires s.ready && page(WatchRequestFor(videoId, s)) == Ok(html)
    requires forall p :: NoRegexMatchAt(html, p)
    ensures HandleStreams(s, videoId, page, parse, decipher) == Response(500, ErrorBody(PayloadNotFoundMessage))
  {
    ScanPayloadFailsIffNoMatch(html);
  }

  /** With no progressive formats, the decipher step receives exactly the
      adaptive formats, in their original order. */
  lemma AdaptiveOnlyFormats(sd: StreamingData)
    requires sd.formats.GetOr([]) == []
    ensures AllFormats(sd) == sd.adaptiveFormats.GetOr([])
  {
  }
}
