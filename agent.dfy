/** `sig_stuff/agent.js`: turning flat cookie records into cookie-jar cookies,
    filling a jar (with the baseline `SOCS` consent cookie added to the caller's
    array when it has none), parsing a `Cookie` header string, and choosing the
    jar an agent is bound to.

    tough-cookie is abstract here: a `CookieJar` is the append-only record of its
    `setCookieSync` calls, `canonicalDomain` is recorded rather than computed, and
    `Cookie.parse` is a parameter. The undici and https-proxy-agent dispatchers
    are represented by the options they are built from. */
module Agent {
  import opened Results
  import opened Text

  // ---------------------------------------------------------------------------
  // Cookie conversion (sig_stuff/agent.js:6-32)

  /** The three SameSite values of a jar cookie; `NoRestriction` is `"none"`. */
  datatype SameSite = Strict | Lax | NoRestriction

  function SameSiteName(x: SameSite): string {
    match x
    case Strict => "strict"
    case Lax => "lax"
    case NoRestriction => "none"
  }

  /** `convertSameSite`: `"strict"` and `"lax"` are kept, anything else
      (`"no_restriction"`, `"unspecified"`, a missing member, any other value)
      becomes `"none"`. */
  function ConvertSameSite(sameSite: Option<string>): (r: SameSite)
    ensures r == Strict <==> sameSite == Some("strict")
    ensures r == Lax <==> sameSite == Some("lax")
    ensures r == NoRestriction <==> sameSite != Some("strict") && sameSite != Some("lax")
  {
    match sameSite
    case Some("strict") => Strict
    case Some("lax") => Lax
    case _ => NoRestriction
  }

  /** Converting the name of a converted value gives the same value back. */
  lemma ConvertSameSiteOfName(sameSite: Option<string>)
    ensures ConvertSameSite(Some(SameSiteName(ConvertSameSite(sameSite)))) == ConvertSameSite(sameSite)
  {
  }

  /** A flat cookie record as browser extensions export it. `expirationDate`
      is in whole seconds since the epoch. */
  datatype CookieRecord = CookieRecord(
    name: string, value: string, domain: Option<string>, path: Option<string>,
    secure: Option<bool>, httpOnly: Option<bool>, sameSite: Option<string>,
    hostOnly: Option<bool>, expirationDate: Option<int>)

  /** `expires` of a jar cookie: a point in time in milliseconds, or `"Infinity"`. */
  datatype Expiry = ExpiresAtMillis(millis: int) | NeverExpires

  /** The result of tough-cookie's `canonicalDomain` on `raw`, which the model
      does not compute. */
  datatype Domain = CanonicalDomain(raw: Option<string>)

  /** A tough-cookie `Cookie` instance. It has a `key`, not a `name`. */
  datatype JarCookie = JarCookie(
    key: string, value: string, expires: Expiry, domain: Domain, path: Option<string>,
    secure: Option<bool>, httpOnly: Option<bool>, sameSite: Option<SameSite>, hostOnly: Option<bool>)

  /** An element of the array handed to `addCookies`: a flat record or an
      existing `Cookie` instance. */
  datatype CookieInput = Record(rec: CookieRecord) | Instance(cookie: JarCookie)

  /** `convertCookie`. */
  function ConvertCookie(c: CookieInput): (r: JarCookie)
    ensures c.Instance? ==> r == c.cookie
    ensures c.Record? ==> r.key == c.rec.name && r.value == c.rec.value
    ensures c.Record? ==> r.expires == (if c.rec.expirationDate.Some?
                                        then ExpiresAtMillis(c.rec.expirationDate.value * 1000)
                                        else NeverExpires)
    ensures c.Record? ==> r.sameSite == Some(ConvertSameSite(c.rec.sameSite))
    ensures c.Record? ==> r.domain == CanonicalDomain(c.rec.domain) && r.path == c.rec.path
    ensures c.Record? ==> r.secure == c.rec.secure && r.httpOnly == c.rec.httpOnly && r.hostOnly == c.rec.hostOnly
  {
    match c
    case Instance(cookie) => cookie
    case Record(rec) =>
      JarCookie(
        key := rec.name,
        value := rec.value,
        expires := if rec.expirationDate.Some? then ExpiresAtMillis(rec.expirationDate.value * 1000) else NeverExpires,
        domain := CanonicalDomain(rec.domain),
        path := rec.path,
        secure := rec.secure,
        httpOnly := rec.httpOnly,
        sameSite := Some(ConvertSameSite(rec.sameSite)),
        hostOnly := rec.hostOnly)
  }

  // ---------------------------------------------------------------------------
  // The consent cookie (sig_stuff/agent.js:38-50)

  /** The record `addCookies` pushes when no element is named `SOCS`. */
  const ConsentCookie: CookieRecord := CookieRecord(
    name := "SOCS", value := "CAI", domain := Some(".youtube.com"), path := Some("/"),
    secure := Some(true), httpOnly := Some(false), sameSite := Some("lax"),
    hostOnly := Some(false), expirationDate := None)

  /** `c.name === "SOCS"`. A `Cookie` instance has no `name`, so it never matches. */
  predicate IsNamedSocs(c: CookieInput) {
    c.Record? && c.rec.name == "SOCS"
  }

  /** `cookies.some(c => c.name === "SOCS")`. */
  predicate HasSocs(cs: seq<CookieInput>) {
    exists i :: 0 <= i < |cs| && IsNamedSocs(cs[i])
  }

  /** The caller's array after the consent check of `addCookies`. */
  function WithConsentCookie(cs: seq<CookieInput>): (r: seq<CookieInput>)
    ensures HasSocs(r)
    ensures |cs| <= |r| && r[..|cs|] == cs
  {
    if HasSocs(cs) then cs
    else
      var r := cs + [Record(ConsentCookie)];
      assert IsNamedSocs(r[|cs|]);
      r
  }

  /** How many elements are named `SOCS`. */
  function SocsCount(cs: seq<CookieInput>): nat {
    if cs == [] then 0
    else SocsCount(cs[..|cs| - 1]) + (if IsNamedSocs(cs[|cs| - 1]) then 1 else 0)
  }

  lemma {:induction false} SocsCountPositiveIffHasSocs(cs: seq<CookieInput>)
    ensures SocsCount(cs) > 0 <==> HasSocs(cs)
  {
    if cs != [] {
      var init := cs[..|cs| - 1];
      SocsCountPositiveIffHasSocs(init);
      if HasSocs(init) {
        var i :| 0 <= i < |init| && IsNamedSocs(init[i]);
        assert cs[i] == init[i];
      }
      if HasSocs(cs) && !IsNamedSocs(cs[|cs| - 1]) {
        var i :| 0 <= i < |cs| && IsNamedSocs(cs[i]);
        assert init[i] == cs[i];
      }
    }
  }

  /** The consent cookie is appended, at the end and only when no element is
      named `SOCS`; the caller's elements keep their places. */
  lemma ConsentCookieAppendedOnlyIfAbsent(cs: seq<CookieInput>)
    ensures var r := WithConsentCookie(cs);
            && HasSocs(r)
            && r[..|cs|] == cs
            && (HasSocs(cs) ==> r == cs)
            && (!HasSocs(cs) ==> |r| == |cs| + 1 && r[|cs|] == Record(ConsentCookie))
  {
    if !HasSocs(cs) {
      assert IsNamedSocs(WithConsentCookie(cs)[|cs|]);
    }
  }

  /** After the consent check the number of `SOCS` elements is the original
      number, or one when there was none. */
  lemma SocsCountAfterConsentCheck(cs: seq<CookieInput>)
    ensures SocsCount(WithConsentCookie(cs)) == if SocsCount(cs) == 0 then 1 else SocsCount(cs)
  {
    SocsCountPositiveIffHasSocs(cs);
    if !HasSocs(cs) {
      var r := WithConsentCookie(cs);
      assert r[..|r| - 1] == cs;
    }
  }

  /** The consent check is idempotent: a second `addCookies` on the same array
      does not change it. */
  lemma ConsentCheckIdempotent(cs: seq<CookieInput>)
    ensures WithConsentCookie(WithConsentCookie(cs)) == WithConsentCookie(cs)
  {
    ConsentCookieAppendedOnlyIfAbsent(cs);
  }

  // ---------------------------------------------------------------------------
  // The jar and the caller's array (sig_stuff/agent.js:34-54)

  /** Every cookie is stored against this URL (sig_stuff/agent.js:52). */
  const CookieOrigin: string := "https://www.youtube.com"

  /** One `jar.setCookieSync(cookie, url)` call. */
  datatype SetCall = SetCall(cookie: JarCookie, url: string)

  /** A tough-cookie `CookieJar`, seen through the calls it has received. */
  class CookieJar {
    var calls: seq<SetCall>

    constructor ()
      ensures calls == []
    {
      calls := [];
    }

    method SetCookieSync(c: JarCookie, url: string)
      modifies this
      ensures calls == old(calls) + [SetCall(c, url)]
    {
      calls := calls + [SetCall(c, url)];
    }
  }

  /** A JavaScript array of cookie inputs, owned by the caller and changed in place. */
  class CookieArray {
    var items: seq<CookieInput>

    constructor (items: seq<CookieInput>)
      ensures this.items == items
    {
      this.items := items;
    }

    method Push(x: CookieInput)
      modifies this
      ensures items == old(items) + [x]
    {
      items := items + [x];
    }
  }

  /** The `cookies` argument: `undefined` (where a default parameter applies),
      another falsy value, an array, or any other value. */
  datatype CookiesArg = Missing | Falsy | ArrayRef(arr: CookieArray) | OtherValue {
    function Footprint(): set<object> {
      if ArrayRef? then {arr} else {}
    }
  }

  /** The `setCookieSync` calls `addCookies` makes for the elements `cs`, in order. */
  function JarCalls(cs: seq<CookieInput>): (r: seq<SetCall>)
    ensures |r| == |cs|
  {
    if cs == [] then []
    else JarCalls(cs[..|cs| - 1]) + [SetCall(ConvertCookie(cs[|cs| - 1]), CookieOrigin)]
  }

  /** Each element is converted and stored against the origin, one call per
      element, in array order. */
  lemma {:induction false} JarCallsInOrder(cs: seq<CookieInput>)
    ensures |JarCalls(cs)| == |cs|
    ensures forall i :: 0 <= i < |cs| ==> JarCalls(cs)[i] == SetCall(ConvertCookie(cs[i]), CookieOrigin)
  {
    if cs != [] {
      var init := cs[..|cs| - 1];
      JarCallsInOrder(init);
      assert forall i :: 0 <= i < |init| ==> cs[i] == init[i];
    }
  }

  const NotAnArrayMessage: string := "cookies must be an array"

  /** `addCookies(jar, cookies)`: throws for anything but an array, before touching
      the jar; otherwise appends the consent cookie to the caller's array when none
      is named `SOCS`, then stores every element of the array into the jar. */
  method AddCookies(jar: CookieJar, cookies: CookiesArg) returns (r: Outcome)
    modifies jar, cookies.Footprint()
    ensures !cookies.ArrayRef? ==> r == Fail(NotAnArrayMessage) && jar.calls == old(jar.calls)
    ensures cookies.ArrayRef? ==> r == Pass
    ensures cookies.ArrayRef? ==> cookies.arr.items == WithConsentCookie(old(cookies.arr.items))
    ensures cookies.ArrayRef? ==> jar.calls == old(jar.calls) + JarCalls(cookies.arr.items)
  {
    if !cookies.ArrayRef? {
      return Fail(NotAnArrayMessage);
    }
    var a := cookies.arr;
    if !HasSocs(a.items) {
      a.Push(Record(ConsentCookie));
    }
    var i := 0;
    while i < |a.items|
      invariant 0 <= i <= |a.items|
      invariant a.items == WithConsentCookie(old(a.items))
      invariant jar.calls == old(jar.calls) + JarCalls(a.items[..i])
    {
      jar.SetCookieSync(ConvertCookie(a.items[i]), CookieOrigin);
      assert a.items[..i + 1][..i] == a.items[..i];
      i := i + 1;
    }
    assert a.items[..i] == a.items;
    r := Pass;
  }

  // ---------------------------------------------------------------------------
  // Cookie strings (sig_stuff/agent.js:56-67)

  /** The `cookies` argument of `addCookiesFromString`: a string or anything else. */
  datatype StringArg = StringValue(text: string) | NotAString

  const NotAStringMessage: string := "cookies must be a string"

  /** `segments.map(c => Cookie.parse(c)).filter(Boolean)`, with `parse`
      standing for `Cookie.parse` (`None` where it yields no cookie). */
  function ParsedCookies(segments: seq<string>, parse: string -> Option<JarCookie>): (r: seq<JarCookie>)
    ensures |r| <= |segments|
  {
    if segments == [] then []
    else
      var init := ParsedCookies(segments[..|segments| - 1], parse);
      match parse(segments[|segments| - 1])
      case None => init
      case Some(c) => init + [c]
  }

  /** Parsing distributes over concatenation of segment lists, so the kept
      cookies appear in the order of their segments. */
  lemma {:induction false} ParsedCookiesConcat(a: seq<string>, b: seq<string>, parse: string -> Option<JarCookie>)
    ensures ParsedCookies(a + b, parse) == ParsedCookies(a, parse) + ParsedCookies(b, parse)
    decreases |b|
  {
    if b == [] {
      assert a + b == a;
    } else {
      var binit := b[..|b| - 1];
      ParsedCookiesConcat(a, binit, parse);
      assert (a + b)[..|a + b| - 1] == a + binit;
    }
  }

  /** A cookie is kept exactly when some segment parses to it; nothing is
      invented and at most one cookie comes from each segment. */
  lemma {:induction false} ParsedCookiesKeepsExactlyAccepted(segments: seq<string>, parse: string -> Option<JarCookie>, c: JarCookie)
    ensures |ParsedCookies(segments, parse)| <= |segments|
    ensures c in ParsedCookies(segments, parse) <==> exists i :: 0 <= i < |segments| && parse(segments[i]) == Some(c)
  {
    if segments != [] {
      var init := segments[..|segments| - 1];
      ParsedCookiesKeepsExactlyAccepted(init, parse, c);
      if exists i :: 0 <= i < |init| && parse(init[i]) == Some(c) {
        var i :| 0 <= i < |init| && parse(init[i]) == Some(c);
        assert segments[i] == init[i];
      }
      if exists i :: 0 <= i < |segments| && parse(segments[i]) == Some(c) {
        var i :| 0 <= i < |segments| && parse(segments[i]) == Some(c);
        if i < |init| {
          assert init[i] == segments[i];
        }
      }
    }
  }

  /** When every segment parses, every parsed cookie is kept, in segment order. */
  lemma {:induction false} ParsedCookiesAllAccepted(segments: seq<string>, parse: string -> Option<JarCookie>)
    requires forall i :: 0 <= i < |segments| ==> parse(segments[i]).Some?
    ensures |ParsedCookies(segments, parse)| == |segments|
    ensures forall i :: 0 <= i < |segments| ==> ParsedCookies(segments, parse)[i] == parse(segments[i]).value
  {
    if segments != [] {
      var init := segments[..|segments| - 1];
      assert forall i :: 0 <= i < |init| ==> init[i] == segments[i];
      ParsedCookiesAllAccepted(init, parse);
    }
  }

  /** The array `addCookiesFromString` hands to `addCookies`: the `Cookie`
      instances parsed from the `;`-separated segments of `text`. */
  function CookiesFromString(text: string, parse: string -> Option<JarCookie>): (cs: seq<CookieInput>)
    ensures var parsed := ParsedCookies(Split(text, ';'), parse);
            |cs| == |parsed| && forall i :: 0 <= i < |cs| ==> cs[i] == Instance(parsed[i])
  {
    var parsed := ParsedCookies(Split(text, ';'), parse);
    seq(|parsed|, i requires 0 <= i < |parsed| => Instance(parsed[i]))
  }

  /** Cookies parsed from a string are `Cookie` instances, which have a `key`
      rather than a `name`, so the consent check never sees a `SOCS` among them
      and always appends its own, even when the string sets `SOCS`. */
  lemma StringCookiesAlwaysGetConsentCookie(text: string, parse: string -> Option<JarCookie>)
    ensures WithConsentCookie(CookiesFromString(text, parse)) == CookiesFromString(text, parse) + [Record(ConsentCookie)]
  {
    var cs := CookiesFromString(text, parse);
    assert forall i :: 0 <= i < |cs| ==> !IsNamedSocs(cs[i]);
  }

  /** `addCookiesFromString(jar, cookies)`: throws for a non-string or an empty
      string; otherwise adds the parsed cookies, in segment order, as
      `addCookies` does. */
  method AddCookiesFromString(jar: CookieJar, cookies: StringArg, parse: string -> Option<JarCookie>) returns (r: Outcome)
    modifies jar
    ensures r.Fail? <==> cookies.NotAString? || cookies.text == ""
    ensures r.Fail? ==> r.error == NotAStringMessage && jar.calls == old(jar.calls)
    ensures r.Pass? ==> jar.calls == old(jar.calls) + JarCalls(WithConsentCookie(CookiesFromString(cookies.text, parse)))
  {
    if cookies.NotAString? || cookies.text == "" {
      return Fail(NotAStringMessage);
    }
    var parsed := new CookieArray(CookiesFromString(cookies.text, parse));
    r := AddCookies(jar, ArrayRef(parsed));
  }

  // ---------------------------------------------------------------------------
  // Agents (sig_stuff/agent.js:69-98)

  /** `options.cookies` when truthy: an object whose `jar` member may be missing. */
  datatype CookieOption = CookieOption(jar: Option<CookieJar>)

  /** The options of `createAgent` that it reads: `cookies` and `localAddress`. */
  datatype AgentOptions = AgentOptions(cookies: Option<CookieOption>, localAddress: Option<string>)

  /** `{dispatcher: new CookieAgent(options), localAddress, jar}`; the dispatcher
      is represented by the options it is built from. */
  datatype Agent = Agent(dispatcherOptions: AgentOptions, localAddress: Option<string>, jar: Option<CookieJar>)

  /** `createAgent(cookies, opts)`. A truthy `opts.cookies` is used as is (its
      jar, possibly missing, is the agent's), without looking at `cookies`.
      Otherwise a fresh jar is filled by `addCookies` (`undefined` cookies
      meaning `[]`) and bound into a copy of the options; `opts` itself never
      changes. */
  method CreateAgent(cookies: CookiesArg, opts: AgentOptions) returns (r: Result<Agent>)
    modifies cookies.Footprint()
    ensures opts.cookies.Some? ==> r == Ok(Agent(opts, opts.localAddress, opts.cookies.value.jar))
    ensures opts.cookies.Some? && cookies.ArrayRef? ==> cookies.arr.items == old(cookies.arr.items)
    ensures opts.cookies.None? && (cookies.Falsy? || cookies.OtherValue?) ==> r == Err(NotAnArrayMessage)
    ensures opts.cookies.None? && (cookies.Missing? || cookies.ArrayRef?) ==>
              && r.Ok? && r.value.jar.Some? && fresh(r.value.jar.value)
              && r.value.dispatcherOptions == opts.(cookies := Some(CookieOption(r.value.jar)))
              && r.value.localAddress == opts.localAddress
    ensures opts.cookies.None? && cookies.Missing? ==>
              r.Ok? && r.value.jar.Some? && r.value.jar.value.calls == JarCalls(WithConsentCookie([]))
    ensures opts.cookies.None? && cookies.ArrayRef? ==>
              && cookies.arr.items == WithConsentCookie(old(cookies.arr.items))
              && r.Ok? && r.value.jar.Some? && r.value.jar.value.calls == JarCalls(cookies.arr.items)
  {
    var options := opts;
    if options.cookies.None? {
      var arg := cookies;
      if cookies.Missing? {
        var empty := new CookieArray([]);
        arg := ArrayRef(empty);
      }
      var jar := new CookieJar();
      var added := AddCookies(jar, arg);
      if added.Fail? {
        return Err(added.error);
      }
      options := options.(cookies := Some(CookieOption(Some(jar))));
    }
    r := Ok(Agent(options, options.localAddress, options.cookies.value.jar));
  }

  /** `exports.defaultAgent = createAgent()`: its jar holds exactly the consent cookie. */
  method DefaultAgent() returns (r: Agent)
    ensures r.jar.Some? && fresh(r.jar.value)
    ensures r.jar.value.calls == [SetCall(ConvertCookie(Record(ConsentCookie)), CookieOrigin)]
  {
    var created := CreateAgent(Missing, AgentOptions(None, None));
    assert !HasSocs([]);
    r := created.value;
  }

  /** The proxy options `createProxyAgent` reads: `uri` and `localAddress`. */
  datatype ProxyOptions = ProxyOptions(uri: Option<string>, localAddress: Option<string>)

  /** The `options` argument of `createProxyAgent`: a string or an options object. */
  datatype ProxyArg = ProxyUri(uri: string) | ProxyObject(options: ProxyOptions)

  /** `if (typeof options === "string") options = { uri: options }`. */
  function NormalizeProxyArg(o: ProxyArg): (r: ProxyOptions)
    ensures o.ProxyUri? ==> r.uri == Some(o.uri) && r.localAddress.None?
    ensures o.ProxyObject? ==> r == o.options
  {
    match o
    case ProxyUri(uri) => ProxyOptions(Some(uri), None)
    case ProxyObject(options) => options
  }

  /** `{dispatcher, agent, jar, localAddress}`: the undici dispatcher is
      represented by the options it is built from, the `HttpsProxyAgent` by its URI. */
  datatype ProxyAgent = ProxyAgent(dispatcherOptions: ProxyOptions, agentUri: Option<string>,
                                   jar: CookieJar, localAddress: Option<string>)

  /** `createProxyAgent(options, cookies)`: a falsy `cookies` (or `undefined`)
      means `[]`; a fresh jar is always filled by `addCookies`, and the proxy
      dispatcher is composed with that jar. */
  method CreateProxyAgent(options: ProxyArg, cookies: CookiesArg) returns (r: Result<ProxyAgent>)
    modifies cookies.Footprint()
    ensures cookies.OtherValue? ==> r == Err(NotAnArrayMessage)
    ensures !cookies.OtherValue? ==>
              && r.Ok? && fresh(r.value.jar)
              && r.value.dispatcherOptions == NormalizeProxyArg(options)
              && r.value.agentUri == NormalizeProxyArg(options).uri
              && r.value.localAddress == NormalizeProxyArg(options).localAddress
    ensures (cookies.Missing? || cookies.Falsy?) ==>
              r.Ok? && r.value.jar.calls == JarCalls(WithConsentCookie([]))
    ensures cookies.ArrayRef? ==>
              && cookies.arr.items == WithConsentCookie(old(cookies.arr.items))
              && r.Ok? && r.value.jar.calls == JarCalls(cookies.arr.items)
  {
    var arg := cookies;
    if cookies.Missing? || cookies.Falsy? {
      var empty := new CookieArray([]);
      arg := ArrayRef(empty);
    }
    var proxyOptions := NormalizeProxyArg(options);
    var jar := new CookieJar();
    var added := AddCookies(jar, arg);
    if added.Fail? {
      return Err(added.error);
    }
    r := Ok(ProxyAgent(proxyOptions, proxyOptions.uri, jar, proxyOptions.localAddress));
  }
}
