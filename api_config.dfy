/** The records and the small rules of hazetunnel/api/config.go. */
module ApiConfig {
  import opened Wrappers
  import opened Profiles

  /** `ConfigFlags`: the process-wide settings. */
  datatype ConfigFlags = ConfigFlags(cert: string, key: string, verbose: bool)

  /** `ProxySetup`: the settings of one proxy instance. */
  datatype ProxySetup = ProxySetup(
    addr: string, port: string, userAgent: string, payload: string, upstreamProxy: string, id: string)

  /** The records `SetVerbose` and `SetKeyPair` parse. */
  datatype VerbositySetting = VerbositySetting(verbose: bool)
  datatype KeyPairSetting = KeyPairSetting(cert: string, key: string)

  /** The two `cflog` levels the package uses. */
  datatype LogLevel = LevelInfo | LevelError

  /** The level `UpdateVerbosity` installs for a given `Config.Verbose`. */
  function VerbosityLevel(verbose: bool): (level: LogLevel)
    ensures level == LevelInfo <==> verbose
    ensures level == LevelError <==> !verbose
  {
    if verbose then LevelInfo else LevelError
  }

  /** A JSON object as its members, in order. */
  type JsonObject = seq<(string, string)>

  function OmitEmpty(name: string, value: string): JsonObject {
    if value == "" then [] else [(name, value)]
  }

  /** The members `json.Marshal` writes for a `ProxySetup`: `port` and `id` always,
      the `omitempty` fields only when they are non-empty. */
  function EncodeSetup(p: ProxySetup): JsonObject {
    OmitEmpty("addr", p.addr) + [("port", p.port)] + OmitEmpty("user_agent", p.userAgent)
    + OmitEmpty("payload", p.payload) + OmitEmpty("upstreamproxy", p.upstreamProxy) + [("id", p.id)]
  }

  /** The value a decoder stores for member `name`: the last occurrence wins, a missing member
      leaves the field at its zero value. */
  function Member(obj: JsonObject, name: string): (v: string)
    ensures v != "" ==> exists i :: 0 <= i < |obj| && obj[i] == (name, v)
    ensures (forall i :: 0 <= i < |obj| ==> obj[i].0 != name) ==> v == ""
    decreases |obj|
  {
    if |obj| == 0 then ""
    else if obj[|obj| - 1].0 == name then obj[|obj| - 1].1
    else Member(obj[..|obj| - 1], name)
  }

  /** `json.Unmarshal` into a `ProxySetup`. */
  function DecodeSetup(obj: JsonObject): ProxySetup {
    ProxySetup(Member(obj, "addr"), Member(obj, "port"), Member(obj, "user_agent"),
               Member(obj, "payload"), Member(obj, "upstreamproxy"), Member(obj, "id"))
  }

  /** Whether `obj` has a member called `name`. */
  function Has(obj: JsonObject, name: string): bool
    decreases |obj|
  {
    |obj| > 0 && (obj[|obj| - 1].0 == name || Has(obj[..|obj| - 1], name))
  }

  /** Members after the last `name` do not change what a decoder reads for `name`. */
  lemma {:induction false} SkipTail(a: JsonObject, b: JsonObject, name: string)
    requires !Has(b, name)
    ensures Member(a + b, name) == Member(a, name)
    decreases |b|
  {
    if |b| > 0 {
      assert (a + b)[..|a + b| - 1] == a + b[..|b| - 1];
      SkipTail(a, b[..|b| - 1], name);
    } else {
      assert a + b == a;
    }
  }

  lemma {:induction false} NoMember(obj: JsonObject, name: string)
    requires !Has(obj, name)
    ensures Member(obj, name) == ""
    decreases |obj|
  {
    if |obj| > 0 {
      NoMember(obj[..|obj| - 1], name);
    }
  }

  lemma OmitEmptyMember(a: JsonObject, name: string, v: string)
    requires !Has(a, name)
    ensures Member(a + OmitEmpty(name, v), name) == v
  {
    if v == "" {
      assert a + OmitEmpty(name, v) == a;
      NoMember(a, name);
    }
  }

  lemma DecodeFront(p: ProxySetup)
    ensures Member(EncodeSetup(p), "addr") == p.addr
    ensures Member(EncodeSetup(p), "port") == p.port
  {
    var x1 := OmitEmpty("addr", p.addr);
    var x2 := x1 + [("port", p.port)];
    var x3 := x2 + OmitEmpty("user_agent", p.userAgent);
    var x4 := x3 + OmitEmpty("payload", p.payload);
    var x5 := x4 + OmitEmpty("upstreamproxy", p.upstreamProxy);
    var x6 := x5 + [("id", p.id)];
    assert EncodeSetup(p) == x6;
    SkipTail(x5, [("id", p.id)], "addr");
    SkipTail(x4, OmitEmpty("upstreamproxy", p.upstreamProxy), "addr");
    SkipTail(x3, OmitEmpty("payload", p.payload), "addr");
    SkipTail(x2, OmitEmpty("user_agent", p.userAgent), "addr");
    SkipTail(x1, [("port", p.port)], "addr");
    OmitEmptyMember([], "addr", p.addr);
    assert [] + x1 == x1;
    SkipTail(x5, [("id", p.id)], "port");
    SkipTail(x4, OmitEmpty("upstreamproxy", p.upstreamProxy), "port");
    SkipTail(x3, OmitEmpty("payload", p.payload), "port");
    SkipTail(x2, OmitEmpty("user_agent", p.userAgent), "port");
  }

  lemma DecodeMiddle(p: ProxySetup)
    ensures Member(EncodeSetup(p), "user_agent") == p.userAgent
    ensures Member(EncodeSetup(p), "payload") == p.payload
  {
    var x1 := OmitEmpty("addr", p.addr);
    var x2 := x1 + [("port", p.port)];
    var x3 := x2 + OmitEmpty("user_agent", p.userAgent);
    var x4 := x3 + OmitEmpty("payload", p.payload);
    var x5 := x4 + OmitEmpty("upstreamproxy", p.upstreamProxy);
    var x6 := x5 + [("id", p.id)];
    assert EncodeSetup(p) == x6;
    assert !Has(x1, "user_agent") && !Has(x2, "user_agent");
    SkipTail(x5, [("id", p.id)], "user_agent");
    SkipTail(x4, OmitEmpty("upstreamproxy", p.upstreamProxy), "user_agent");
    SkipTail(x3, OmitEmpty("payload", p.payload), "user_agent");
    OmitEmptyMember(x2, "user_agent", p.userAgent);
    assert !Has(x1, "payload") && !Has(x2, "payload");
    assert !Has(OmitEmpty("user_agent", p.userAgent), "payload");
    HasConcat(x2, OmitEmpty("user_agent", p.userAgent), "payload");
    SkipTail(x5, [("id", p.id)], "payload");
    SkipTail(x4, OmitEmpty("upstreamproxy", p.upstreamProxy), "payload");
    OmitEmptyMember(x3, "payload", p.payload);
  }

  lemma DecodeBack(p: ProxySetup)
    ensures Member(EncodeSetup(p), "upstreamproxy") == p.upstreamProxy
    ensures Member(EncodeSetup(p), "id") == p.id
  {
    var x1 := OmitEmpty("addr", p.addr);
    var x2 := x1 + [("port", p.port)];
    var x3 := x2 + OmitEmpty("user_agent", p.userAgent);
    var x4 := x3 + OmitEmpty("payload", p.payload);
    var x5 := x4 + OmitEmpty("upstreamproxy", p.upstreamProxy);
    var x6 := x5 + [("id", p.id)];
    assert EncodeSetup(p) == x6;
    assert !Has(x1, "upstreamproxy");
    HasConcat(x1, [("port", p.port)], "upstreamproxy");
    HasConcat(x2, OmitEmpty("user_agent", p.userAgent), "upstreamproxy");
    HasConcat(x3, OmitEmpty("payload", p.payload), "upstreamproxy");
    SkipTail(x5, [("id", p.id)], "upstreamproxy");
    OmitEmptyMember(x4, "upstreamproxy", p.upstreamProxy);
  }

  lemma {:induction false} HasConcat(a: JsonObject, b: JsonObject, name: string)
    ensures Has(a + b, name) <==> Has(a, name) || Has(b, name)
    decreases |b|
  {
    if |b| > 0 {
      assert (a + b)[..|a + b| - 1] == a + b[..|b| - 1];
      HasConcat(a, b[..|b| - 1], name);
    } else {
      assert a + b == a;
    }
  }

  /** Decoding what was encoded gives back the same settings. */
  lemma DecodeEncode(p: ProxySetup)
    ensures DecodeSetup(EncodeSetup(p)) == p
  {
    DecodeFront(p);
    DecodeMiddle(p);
    DecodeBack(p);
  }

  /** `port` and `id` are always written; an `omitempty` member is written iff its field is non-empty. */
  lemma EncodeMembers(p: ProxySetup)
    ensures ("port", p.port) in EncodeSetup(p) && ("id", p.id) in EncodeSetup(p)
    ensures (exists v :: ("addr", v) in EncodeSetup(p)) <==> p.addr != ""
    ensures (exists v :: ("user_agent", v) in EncodeSetup(p)) <==> p.userAgent != ""
    ensures (exists v :: ("payload", v) in EncodeSetup(p)) <==> p.payload != ""
    ensures (exists v :: ("upstreamproxy", v) in EncodeSetup(p)) <==> p.upstreamProxy != ""
  {
    var e := EncodeSetup(p);
    if p.addr != "" {
      assert ("addr", p.addr) in e;
    }
    if p.userAgent != "" {
      assert e[|OmitEmpty("addr", p.addr)| + 1] == ("user_agent", p.userAgent);
    }
    if p.upstreamProxy != "" {
      assert e[|e| - 2] == ("upstreamproxy", p.upstreamProxy);
    }
    if p.payload != "" {
      assert e[|e| - 2 - |OmitEmpty("upstreamproxy", p.upstreamProxy)|] == ("payload", p.payload);
    }
  }

  /** `utls.ClientHelloID` without its `Seed` and `Weights`, which this code always leaves nil. */
  datatype ClientHelloID = ClientHelloID(client: string, version: string)

  /** The zero `ClientHelloID{}`. */
  const ZeroHello := ClientHelloID("", "")

  /** `getClientHelloID`: the browser name and uTLS version of the User-Agent, or the zero
      value together with the lookup's error. */
  method GetClientHelloID(ua: UserAgent) returns (hello: ClientHelloID, err: Option<ProfileError>)
    ensures err.None? <==> UtlsVersionSpec(ua.name, ua.version).Ok?
    ensures err.None? ==> hello == ClientHelloID(ua.name, UtlsVersionSpec(ua.name, ua.version).value)
    ensures err.Some? ==> hello == ZeroHello && err.value == UtlsVersionSpec(ua.name, ua.version).error
  {
    var r := UagentToUtls(ua);
    if r.Err? {
      return ZeroHello, Some(r.error);
    }
    return ClientHelloID(r.value.0, r.value.1), None;
  }
}
