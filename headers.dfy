/** HTTP header maps as Go's `http.Header` treats them, and the `x-mitm-*` control headers of
    hazetunnel/headers.go. */
module Headers {
  import opened Text

  /** `http.Header`: canonical key to its values. */
  type Header = map<string, seq<string>>

  /** A byte Go accepts in a header field name: a token character (RFC 7230, section 3.2.6). */
  predicate IsTokenChar(c: char) {
    ('a' <= c <= 'z') || ('A' <= c <= 'Z') || ('0' <= c <= '9')
    || c == '!' || c == '#' || c == '$' || c == '%' || c == '&' || c == '\'' || c == '*' || c == '+'
    || c == '-' || c == '.' || c == '^' || c == '_' || c == '`' || c == '|' || c == '~'
  }

  /** One character in upper case (`upper`) or lower case; other characters are kept. */
  function FixChar(c: char, upper: bool): (d: char)
    ensures d == '-' <==> c == '-'
  {
    if upper && 'a' <= c <= 'z' then (c as int - 32) as char
    else if !upper && 'A' <= c <= 'Z' then (c as int + 32) as char
    else c
  }

  /** Case-fixing: upper case at the start and after '-', lower case elsewhere. */
  function FixCase(k: string, upper: bool): (r: string)
    ensures |r| == |k|
    decreases |k|
  {
    if |k| == 0 then []
    else
      var d := FixChar(k[0], upper);
      [d] + FixCase(k[1..], d == '-')
  }

  /** Each character is fixed according to the character before it. */
  lemma {:induction false} FixCaseAt(k: string, upper: bool)
    ensures forall i :: 0 <= i < |k| ==>
      FixCase(k, upper)[i] == FixChar(k[i], if i == 0 then upper else k[i - 1] == '-')
    decreases |k|
  {
    if |k| > 0 {
      FixCaseAt(k[1..], k[0] == '-');
      forall i | 0 <= i < |k|
        ensures FixCase(k, upper)[i] == FixChar(k[i], if i == 0 then upper else k[i - 1] == '-')
      {
        if i > 0 {
          assert FixCase(k, upper)[i] == FixCase(k[1..], k[0] == '-')[i - 1];
          assert k[1..][i - 1] == k[i];
          if i > 1 { assert k[1..][i - 2] == k[i - 1]; }
        }
      }
    }
  }

  /** `textproto.CanonicalMIMEHeaderKey`: a key made of token characters gets its case fixed,
      any other key is returned unchanged. */
  function CanonicalKey(k: string): (r: string)
    ensures |r| == |k|
  {
    if forall i :: 0 <= i < |k| ==> IsTokenChar(k[i]) then FixCase(k, true) else k
  }

  lemma {:induction false} FixCaseTokens(k: string, upper: bool)
    requires forall i :: 0 <= i < |k| ==> IsTokenChar(k[i])
    ensures forall i :: 0 <= i < |k| ==> IsTokenChar(FixCase(k, upper)[i])
    ensures forall i :: 0 <= i < |k| ==> (FixCase(k, upper)[i] == '-' <==> k[i] == '-')
    decreases |k|
  {
    if |k| > 0 {
      FixCaseTokens(k[1..], FixCase(k, upper)[0] == '-');
      forall i | 1 <= i < |k| ensures IsTokenChar(FixCase(k, upper)[i]) && (FixCase(k, upper)[i] == '-' <==> k[i] == '-') {
        assert FixCase(k, upper)[i] == FixCase(k[1..], FixCase(k, upper)[0] == '-')[i - 1];
        assert k[1..][i - 1] == k[i];
      }
    }
  }

  lemma {:induction false} FixCaseIdempotent(k: string, upper: bool)
    ensures FixCase(FixCase(k, upper), upper) == FixCase(k, upper)
    decreases |k|
  {
    if |k| > 0 {
      var r := FixCase(k, upper);
      assert r[1..] == FixCase(k[1..], r[0] == '-');
      FixCaseIdempotent(k[1..], r[0] == '-');
    }
  }

  /** Canonicalising twice is canonicalising once. */
  lemma CanonicalIdempotent(k: string)
    ensures CanonicalKey(CanonicalKey(k)) == CanonicalKey(k)
  {
    if forall i :: 0 <= i < |k| ==> IsTokenChar(k[i]) {
      FixCaseTokens(k, true);
      FixCaseIdempotent(k, true);
    }
  }

  /** `Header.Get`: the first value under the canonical key, or "" when there is none. */
  function Get(h: Header, key: string): (v: string)
    ensures CanonicalKey(key) !in h ==> v == ""
    ensures CanonicalKey(key) in h && |h[CanonicalKey(key)]| > 0 ==> v == h[CanonicalKey(key)][0]
    ensures CanonicalKey(key) in h && |h[CanonicalKey(key)]| == 0 ==> v == ""
  {
    var k := CanonicalKey(key);
    if k in h && |h[k]| > 0 then h[k][0] else ""
  }

  /** `Header.Del`. */
  function Del(h: Header, key: string): (r: Header)
    ensures forall k :: k in r <==> k in h && k != CanonicalKey(key)
    ensures forall k :: k in r ==> r[k] == h[k]
  {
    h - {CanonicalKey(key)}
  }

  const UpStreamProxyHeader := "x-mitm-upstream"
  const PayloadHeader := "x-mitm-payload"
  const IsBase64 := "x-mitm-isbase64"

  /** `CustomHeaders`. */
  const CustomHeaders: seq<string> := [UpStreamProxyHeader, PayloadHeader, IsBase64]

  /** `ProxyConfig`. */
  datatype ProxyConfig = ProxyConfig(upstreamProxy: string, payload: string, isBase64: string)

  /** `parseCustomHeaders`. */
  function ParseCustomHeaders(h: Header): (c: ProxyConfig)
    ensures c.upstreamProxy == Get(h, UpStreamProxyHeader)
    ensures c.payload == Get(h, PayloadHeader) && c.isBase64 == Get(h, IsBase64)
  {
    ProxyConfig(Get(h, UpStreamProxyHeader), Get(h, PayloadHeader), Get(h, IsBase64))
  }

  /** The header map without the custom headers' keys. */
  function WithoutCustom(h: Header): (r: Header)
    ensures forall k :: k in r <==> k in h && k !in CustomKeySet()
    ensures forall k :: k in r ==> r[k] == h[k]
  {
    h - CustomKeySet()
  }

  function CustomKeySet(): set<string> {
    {CanonicalKey(UpStreamProxyHeader), CanonicalKey(PayloadHeader), CanonicalKey(IsBase64)}
  }

  /** Removing twice removes nothing more. */
  lemma RemoveIdempotent(h: Header)
    ensures WithoutCustom(WithoutCustom(h)) == WithoutCustom(h)
  {
  }

  /** After removal the custom headers read as empty. */
  lemma ParseAfterRemove(h: Header)
    ensures ParseCustomHeaders(WithoutCustom(h)) == ProxyConfig("", "", "")
  {
  }

  /** The keys the first `n` iterations of `removeCustomHeaders` delete. */
  function Deleted(n: nat): set<string>
    requires n <= |CustomHeaders|
    ensures forall k :: k in Deleted(n) <==> exists i :: 0 <= i < n && k == CanonicalKey(CustomHeaders[i])
  {
    if n == 0 then {} else Deleted(n - 1) + {CanonicalKey(CustomHeaders[n - 1])}
  }

  /** The whole loop deletes exactly the custom keys. */
  lemma DeletedAll()
    ensures Deleted(|CustomHeaders|) == CustomKeySet()
  {
    assert Deleted(1) == {CanonicalKey(UpStreamProxyHeader)};
    assert Deleted(2) == Deleted(1) + {CanonicalKey(PayloadHeader)};
  }

  /** Deleting one more key from a map with some keys removed. */
  lemma DeleteMore(h: Header, gone: set<string>, k: string)
    ensures (h - gone) - {k} == h - (gone + {k})
  {
  }

  /** A request's header map, which `removeCustomHeaders` changes in place. */
  class HeaderMap {
    var entries: Header

    constructor (entries: Header)
      ensures this.entries == entries
    {
      this.entries := entries;
    }

    /** `Header.Del`. */
    method Delete(key: string)
      modifies this
      ensures entries == Del(old(entries), key)
    {
      entries := entries - {CanonicalKey(key)};
    }

    /** `removeCustomHeaders`. */
    method RemoveCustomHeaders()
      modifies this
      ensures entries == WithoutCustom(old(entries))
    {
      ghost var before := entries;
      for i := 0 to |CustomHeaders|
        invariant entries == before - Deleted(i)
      {
        Delete(CustomHeaders[i]);
        DeleteMore(before, Deleted(i), CanonicalKey(CustomHeaders[i]));
      }
      DeletedAll();
    }
  }
}
