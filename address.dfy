/** The listen address both proxy variants build as `Addr + ":" + Port`. */
module Address {
  import opened Text

  function ListenAddress(addr: string, port: string): (a: string)
    ensures |a| == |addr| + 1 + |port|
  {
    addr + ":" + port
  }

  /** The line both variants log once the listen address is known. */
  function Listening(addr: string): string {
    "Hazetunnel listening at " + addr
  }

  /** The text after the last ':' of `s`, or all of `s` when it has none. For an address
      with exactly one ':' this is the port `net.SplitHostPort` returns; that function fails
      on an address with no ':' ("missing port") or with an unbracketed ':' in the host
      ("too many colons"), which this function does not model. */
  function PortOf(s: string): (p: string)
    ensures ':' !in p
    ensures EndsWith(s, p)
    ensures |p| < |s| <==> ':' in s
    ensures |p| < |s| ==> s[|s| - |p| - 1] == ':'
  {
    if s == [] then []
    else if s[|s| - 1] == ':' then []
    else
      var p := PortOf(s[..|s| - 1]);
      assert s[..|s| - 1] == s[..|s| - 1 - |p|] + p;
      assert ':' in s <==> ':' in s[..|s| - 1];
      p + [s[|s| - 1]]
  }

  /** The text before the last ':' of an address that has one. */
  function HostOf(s: string): (h: string)
    requires ':' in s
    ensures s == h + ":" + PortOf(s)
  {
    var p := PortOf(s);
    assert s == s[..|s| - |p| - 1] + ":" + s[|s| - |p|..];
    s[..|s| - |p| - 1]
  }

  /** Building an address and reading it back at its last colon recovers both parts, even for
      a host that holds colons itself, as long as the port holds none. */
  lemma {:induction false} ListenAddressSplits(addr: string, port: string)
    requires ':' !in port
    ensures PortOf(ListenAddress(addr, port)) == port
    ensures HostOf(ListenAddress(addr, port)) == addr
  {
    PortOfSuffix(addr + ":", port);
  }

  lemma {:induction false} PortOfSuffix(prefix: string, port: string)
    requires |prefix| > 0 && prefix[|prefix| - 1] == ':'
    requires ':' !in port
    ensures PortOf(prefix + port) == port
    decreases |port|
  {
    var s := prefix + port;
    if port == [] {
      assert s == prefix;
    } else {
      assert s[..|s| - 1] == prefix + port[..|port| - 1];
      assert s[|s| - 1] == port[|port| - 1];
      PortOfSuffix(prefix, port[..|port| - 1]);
      assert port == port[..|port| - 1] + [port[|port| - 1]];
    }
  }
}
