/** The per-request rule of the proxies' `OnRequest().DoFunc` handlers: the api package's
    (hazetunnel/api/proxy.go), configured by `ProxySetup`, and the main package's
    (hazetunnel/proxy.go), configured by `x-mitm-*` request headers. `useragent.Parse` and
    `url.Parse` are inputs; the uTLS round tripper is the ClientHello it would use and the
    upstream proxy it would dial through. */
module RequestPolicy {
  import opened Wrappers
  import opened Profiles
  import opened ApiConfig
  import opened Headers

  const UserAgentKey := "User-Agent"
  const BadRequest := 400

  /** A response the handler returns instead of forwarding. */
  datatype Reply = Reply(status: int, body: string)

  /** The ClientHello a round tripper uses: a looked-up profile or `utls.HelloChrome_Auto`. */
  datatype Hello = Profile(id: ClientHelloID) | ChromeAuto

  /** `sf.NewUTLSHTTPRoundTripperWithProxy(hello, …, upstreamProxy)`. */
  datatype RoundTripper = UtlsTripper(hello: Hello, upstream: Option<string>)

  /** What the handler leaves behind: the request's header map, the payload stored in the
      request context, the round tripper set on the proxy context, and the reply, if any. */
  datatype Decision = Decision(header: Header, payload: Option<string>, tripper: Option<RoundTripper>, reply: Option<Reply>)

  const ApiMissingUserAgent := "HAZETUNNEL ERROR: Missing header: User-Agent"

  function ApiInvalidUpstream(up: string): string {
    "HAZETUNNEL ERROR: Invalid upstream proxy: " + up
  }

  const LegacyMissingUserAgent := "Missing header: User-Agent"

  function LegacyInvalidClient(ua: string): string {
    "Invalid client: " + ua
  }

  function LegacyInvalidUpstream(up: string): string {
    "Invalid upstream proxy: " + up
  }

  /** `len(req.Header["User-Agent"]) == 0`: the raw key, without canonicalisation. */
  predicate HasUserAgent(h: Header) {
    UserAgentKey in h && |h[UserAgentKey]| > 0
  }

  /** The ClientHello `getClientHelloID` gives for a User-Agent, `None` on a lookup error. */
  ghost function LookupHello(ua: UserAgent): Option<ClientHelloID> {
    var v := UtlsVersionSpec(ua.name, ua.version);
    if v.Ok? then Some(ClientHelloID(ua.name, v.value)) else None
  }

  function UpstreamOf(up: string): Option<string> {
    if up == "" then None else Some(up)
  }

  /** The tail both handlers share once the ClientHello is chosen and the payload stored:
      an invalid upstream proxy is refused, plain HTTP goes out without a round tripper, and
      anything else through uTLS. */
  function Route(h: Header, payload: string, hello: Hello, up: string, scheme: string,
                 validUrl: string -> bool, invalid: string): (d: Decision)
    ensures d.header == h && d.payload == Some(payload)
    ensures d.reply.Some? <==> up != "" && !validUrl(up)
    ensures d.reply.Some? ==> d.reply.value == Reply(BadRequest, invalid) && d.tripper.None?
    ensures d.reply.None? ==>
      (d.tripper.None? <==> scheme == "http")
      && (d.tripper.Some? ==> d.tripper.value == UtlsTripper(hello, UpstreamOf(up)))
  {
    if up != "" && !validUrl(up) then Decision(h, Some(payload), None, Some(Reply(BadRequest, invalid)))
    else if scheme == "http" then Decision(h, Some(payload), None, None)
    else Decision(h, Some(payload), Some(UtlsTripper(hello, UpstreamOf(up))), None)
  }

  /** The api handler for the instance configured by `setup`. */
  ghost function ApiDecision(setup: ProxySetup, h: Header, scheme: string,
                             parse: string -> UserAgent, validUrl: string -> bool): Decision
  {
    if setup.userAgent == "" && !HasUserAgent(h) then
      Decision(h, None, None, Some(Reply(BadRequest, ApiMissingUserAgent)))
    else
      var h1 := if setup.userAgent != "" then h[UserAgentKey := [setup.userAgent]] else h;
      var hello := LookupHello(parse(h1[UserAgentKey][0]));
      Route(h1, setup.payload, if hello.Some? then Profile(hello.value) else ChromeAuto,
            setup.upstreamProxy, scheme, validUrl, ApiInvalidUpstream(setup.upstreamProxy))
  }

  /** The main-package handler. */
  ghost function LegacyDecision(h: Header, scheme: string,
                                parse: string -> UserAgent, validUrl: string -> bool): Decision
  {
    var cfg := ParseCustomHeaders(h);
    var h1 := WithoutCustom(h);
    if !HasUserAgent(h1) then
      Decision(h1, None, None, Some(Reply(BadRequest, LegacyMissingUserAgent)))
    else
      var ua := h1[UserAgentKey][0];
      var hello := LookupHello(parse(ua));
      if hello.None? then Decision(h1, None, None, Some(Reply(BadRequest, LegacyInvalidClient(ua))))
      else Route(h1, cfg.payload, Profile(hello.value), cfg.upstreamProxy, scheme, validUrl,
                 LegacyInvalidUpstream(cfg.upstreamProxy))
  }

  /** Without an override, a request with no User-Agent is refused with 400 and nothing else
      happens; with one, it is never refused for that reason. */
  lemma ApiUserAgentRequired(setup: ProxySetup, h: Header, scheme: string,
                             parse: string -> UserAgent, validUrl: string -> bool)
    ensures var d := ApiDecision(setup, h, scheme, parse, validUrl);
      (d.reply == Some(Reply(BadRequest, ApiMissingUserAgent)))
      <==> (setup.userAgent == "" && !HasUserAgent(h))
    ensures var d := ApiDecision(setup, h, scheme, parse, validUrl);
      setup.userAgent == "" && !HasUserAgent(h) ==> d == Decision(h, None, None, d.reply)
  {
    if setup.userAgent != "" || HasUserAgent(h) {
      var d := ApiDecision(setup, h, scheme, parse, validUrl);
      if d.reply.Some? {
        assert d.reply.value.body == ApiInvalidUpstream(setup.upstreamProxy);
        assert ApiInvalidUpstream(setup.upstreamProxy)[18] == 'I' != ApiMissingUserAgent[18];
      }
    }
  }

  /** An override replaces the User-Agent values with that single value and leaves every
      other header as it was. */
  lemma ApiOverride(setup: ProxySetup, h: Header, scheme: string,
                    parse: string -> UserAgent, validUrl: string -> bool)
    requires setup.userAgent != ""
    ensures var d := ApiDecision(setup, h, scheme, parse, validUrl);
      d.header[UserAgentKey] == [setup.userAgent]
      && d.header.Keys == h.Keys + {UserAgentKey}
      && forall k :: k in h && k != UserAgentKey ==> d.header[k] == h[k]
  {
  }

  /** The api handler never refuses a User-Agent it cannot map: the request goes out through
      uTLS with the Chrome-auto ClientHello. */
  lemma ApiUnknownClientFallsBack(setup: ProxySetup, h: Header, scheme: string,
                                  parse: string -> UserAgent, validUrl: string -> bool)
    requires setup.userAgent != "" || HasUserAgent(h)
    requires (setup.userAgent != "" ==> LookupHello(parse(setup.userAgent)).None?)
    requires (setup.userAgent == "" ==> LookupHello(parse(h[UserAgentKey][0])).None?)
    requires setup.upstreamProxy == "" || validUrl(setup.upstreamProxy)
    requires scheme != "http"
    ensures ApiDecision(setup, h, scheme, parse, validUrl).reply.None?
    ensures ApiDecision(setup, h, scheme, parse, validUrl).tripper == Some(UtlsTripper(ChromeAuto, UpstreamOf(setup.upstreamProxy)))
  {
  }

  /** The api handler forwards exactly when a User-Agent is available and the upstream proxy
      is absent or parses; a forwarded plain-HTTP request has no round tripper. */
  lemma ApiForwards(setup: ProxySetup, h: Header, scheme: string,
                    parse: string -> UserAgent, validUrl: string -> bool)
    ensures var d := ApiDecision(setup, h, scheme, parse, validUrl);
      d.reply.None? <==>
        (setup.userAgent != "" || HasUserAgent(h))
        && (setup.upstreamProxy == "" || validUrl(setup.upstreamProxy))
    ensures var d := ApiDecision(setup, h, scheme, parse, validUrl);
      d.reply.None? ==> (d.tripper.None? <==> scheme == "http") && d.payload == Some(setup.payload)
  {
  }

  /** The main-package handler reads the custom headers before stripping them: the forwarded
      header map has none of them, and a stored payload is the one the client sent. */
  lemma LegacyStripsCustomHeaders(h: Header, scheme: string,
                                  parse: string -> UserAgent, validUrl: string -> bool)
    ensures var d := LegacyDecision(h, scheme, parse, validUrl);
      d.header == WithoutCustom(h)
      && ParseCustomHeaders(d.header) == ProxyConfig("", "", "")
      && (d.payload.Some? ==> d.payload.value == Get(h, PayloadHeader))
      && (d.tripper.Some? ==> d.tripper.value.upstream == UpstreamOf(Get(h, UpStreamProxyHeader)))
  {
    ParseAfterRemove(h);
  }

  /** Unlike the api handler, the main-package handler refuses a User-Agent it cannot map. */
  lemma LegacyUnknownClientRefused(h: Header, scheme: string,
                                   parse: string -> UserAgent, validUrl: string -> bool)
    requires HasUserAgent(WithoutCustom(h))
    requires LookupHello(parse(h[UserAgentKey][0])).None?
    ensures LegacyDecision(h, scheme, parse, validUrl)
      == Decision(WithoutCustom(h), None, None, Some(Reply(BadRequest, LegacyInvalidClient(h[UserAgentKey][0]))))
  {
  }

  /** The main-package handler forwards exactly when a User-Agent survives the stripping, it
      maps to a profile, and the upstream proxy header is absent or parses. */
  lemma LegacyForwards(h: Header, scheme: string,
                       parse: string -> UserAgent, validUrl: string -> bool)
    ensures var d := LegacyDecision(h, scheme, parse, validUrl);
      var up := Get(h, UpStreamProxyHeader);
      d.reply.None? <==>
        HasUserAgent(WithoutCustom(h))
        && LookupHello(parse(WithoutCustom(h)[UserAgentKey][0])).Some?
        && (up == "" || validUrl(up))
  {
  }

  /** A request in flight: its header map and scheme, and the proxy context's fields. */
  class Exchange {
    const header: HeaderMap
    const scheme: string
    /** The value under `payloadKey` in `ctx.Req`'s context. */
    var payload: Option<string>
    /** `ctx.RoundTripper`. */
    var tripper: Option<RoundTripper>

    constructor (header: HeaderMap, scheme: string)
      ensures this.header == header && this.scheme == scheme
      ensures payload.None? && tripper.None?
    {
      this.header := header;
      this.scheme := scheme;
      payload := None;
      tripper := None;
    }

    /** The state `Decision` describes. */
    function State(reply: Option<Reply>): Decision
      reads this, header
    {
      Decision(header.entries, payload, tripper, reply)
    }

    /** The api package's handler. */
    method ApiHandle(setup: ProxySetup, parse: string -> UserAgent, validUrl: string -> bool)
      returns (reply: Option<Reply>)
      requires payload.None? && tripper.None?
      modifies this, header
      ensures State(reply) == ApiDecision(setup, old(header.entries), scheme, parse, validUrl)
    {
      if setup.userAgent != "" {
        header.entries := header.entries[UserAgentKey := [setup.userAgent]];
      } else if !HasUserAgent(header.entries) {
        return Some(Reply(BadRequest, ApiMissingUserAgent));
      }
      var ua := header.entries[UserAgentKey][0];
      var id, err := GetClientHelloID(parse(ua));
      var hello := if err.None? then Profile(id) else ChromeAuto;
      payload := Some(setup.payload);
      reply := RouteTo(hello, setup.upstreamProxy, validUrl, ApiInvalidUpstream(setup.upstreamProxy));
    }

    /** The main package's handler. */
    method LegacyHandle(parse: string -> UserAgent, validUrl: string -> bool)
      returns (reply: Option<Reply>)
      requires payload.None? && tripper.None?
      modifies this, header
      ensures State(reply) == LegacyDecision(old(header.entries), scheme, parse, validUrl)
    {
      var cfg := ParseCustomHeaders(header.entries);
      header.RemoveCustomHeaders();
      if !HasUserAgent(header.entries) {
        return Some(Reply(BadRequest, LegacyMissingUserAgent));
      }
      var ua := header.entries[UserAgentKey][0];
      var id, err := GetClientHelloID(parse(ua));
      if err.Some? {
        return Some(Reply(BadRequest, LegacyInvalidClient(ua)));
      }
      payload := Some(cfg.payload);
      reply := RouteTo(Profile(id), cfg.upstreamProxy, validUrl, LegacyInvalidUpstream(cfg.upstreamProxy));
    }

    /** The shared tail: upstream check, plain-HTTP bypass, round tripper. */
    method RouteTo(hello: Hello, up: string, validUrl: string -> bool, invalid: string)
      returns (reply: Option<Reply>)
      requires payload.Some? && tripper.None?
      modifies this
      ensures State(reply) == Route(header.entries, old(payload).value, hello, up, scheme, validUrl, invalid)
    {
      if up != "" && !validUrl(up) {
        return Some(Reply(BadRequest, invalid));
      }
      if scheme == "http" {
        return None;
      }
      tripper := Some(UtlsTripper(hello, UpstreamOf(up)));
      return None;
    }
  }
}
