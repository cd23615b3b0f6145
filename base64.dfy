/** Base64 with the standard alphabet and padding, as in section 4 of RFC 4648, in the form the
    injector uses it (`StdEncoding.EncodeToString` and `StdEncoding.DecodeString`). */
module Base64 {
  import opened Wrappers
  import opened Bytes

  /** A base64 digit value. */
  type Sextet = v: int | 0 <= v < 64

  /** The padding character '='. */
  const Pad: Byte := 61

  /** The character of an alphabet value: A-Z, a-z, 0-9, '+', '/'. */
  function EncodeSextet(v: Sextet): (c: Byte)
    ensures c != Pad
  {
    if v < 26 then 65 + v
    else if v < 52 then 97 + (v - 26)
    else if v < 62 then 48 + (v - 52)
    else if v == 62 then 43
    else 47
  }

  /** The value of an alphabet character; anything else (including '=') is not a digit. */
  function DecodeChar(c: Byte): (r: Option<Sextet>)
    ensures c == Pad ==> r.None?
  {
    if 65 <= c <= 90 then Some(c - 65)
    else if 97 <= c <= 122 then Some(c - 97 + 26)
    else if 48 <= c <= 57 then Some(c - 48 + 52)
    else if c == 43 then Some(62)
    else if c == 47 then Some(63)
    else None
  }

  /** Every alphabet character decodes to the value it encodes. */
  lemma DecodeEncodeSextet(v: Sextet)
    ensures DecodeChar(EncodeSextet(v)) == Some(v)
  {
  }

  /** The alphabet is a bijection: a decoded character encodes back to itself. */
  lemma EncodeDecodeChar(c: Byte)
    requires DecodeChar(c).Some?
    ensures EncodeSextet(DecodeChar(c).value) == c
  {
  }

  /** The four characters of a full three-byte group. */
  function EncodeGroup(b0: Byte, b1: Byte, b2: Byte): seq<Byte> {
    [EncodeSextet(b0 / 4), EncodeSextet((b0 % 4) * 16 + b1 / 16),
     EncodeSextet((b1 % 16) * 4 + b2 / 64), EncodeSextet(b2 % 64)]
  }

  /** `EncodeToString`: groups of three bytes, with a final group of one or two bytes padded. */
  function Encode(data: seq<Byte>): (out: seq<Byte>)
    ensures |out| == 4 * ((|data| + 2) / 3)
    decreases |data|
  {
    if |data| == 0 then []
    else if |data| == 1 then
      [EncodeSextet(data[0] / 4), EncodeSextet((data[0] % 4) * 16), Pad, Pad]
    else if |data| == 2 then
      [EncodeSextet(data[0] / 4), EncodeSextet((data[0] % 4) * 16 + data[1] / 16),
       EncodeSextet((data[1] % 16) * 4), Pad]
    else
      EncodeGroup(data[0], data[1], data[2]) + Encode(data[3..])
  }

  /** One decoded quantum: its bytes, and whether it was padded (and so must be the last). */
  datatype Quantum = Quantum(bytes: seq<Byte>, padded: bool)

  /** The bytes of four characters; '=' is allowed only as "xx==" or "xxx=". Bits beyond the
      last whole byte are ignored, as the non-strict decoder does. */
  function DecodeQuantum(c0: Byte, c1: Byte, c2: Byte, c3: Byte): (r: Option<Quantum>)
    ensures r.Some? ==> 1 <= |r.value.bytes| <= 3
    ensures r.Some? ==> (|r.value.bytes| == 3 <==> !r.value.padded)
  {
    var v0 := DecodeChar(c0);
    var v1 := DecodeChar(c1);
    if v0.None? || v1.None? then None
    else
      var d0 := v0.value * 4 + v1.value / 16;
      if c2 == Pad then
        if c3 == Pad then Some(Quantum([d0], true)) else None
      else
        var v2 := DecodeChar(c2);
        if v2.None? then None
        else
          var d1 := (v1.value % 16) * 16 + v2.value / 4;
          if c3 == Pad then Some(Quantum([d0, d1], true))
          else
            var v3 := DecodeChar(c3);
            if v3.None? then None
            else Some(Quantum([d0, d1, (v2.value % 4) * 64 + v3.value], false))
  }

  /** `DecodeString`: whole quanta only, padding only in the last one, no other characters. */
  function Decode(s: seq<Byte>): Option<seq<Byte>>
    decreases |s|
  {
    if |s| == 0 then Some([])
    else if |s| < 4 then None
    else
      match DecodeQuantum(s[0], s[1], s[2], s[3])
      case None => None
      case Some(q) =>
        if |s| == 4 then Some(q.bytes)
        else if q.padded then None
        else
          match Decode(s[4..])
          case None => None
          case Some(rest) => Some(q.bytes + rest)
  }

  lemma GroupArithmetic(b0: Byte, b1: Byte, b2: Byte)
    ensures (b0 / 4) * 4 + ((b0 % 4) * 16 + b1 / 16) / 16 == b0
    ensures (((b0 % 4) * 16 + b1 / 16) % 16) * 16 + ((b1 % 16) * 4 + b2 / 64) / 4 == b1
    ensures (((b1 % 16) * 4 + b2 / 64) % 4) * 64 + b2 % 64 == b2
  {
    var hi := b1 / 16;
    assert 0 <= hi < 16;
    assert ((b0 % 4) * 16 + hi) / 16 == b0 % 4;
    assert ((b0 % 4) * 16 + hi) % 16 == hi;
    var top := b2 / 64;
    assert 0 <= top < 4;
    assert ((b1 % 16) * 4 + top) / 4 == b1 % 16;
    assert ((b1 % 16) * 4 + top) % 4 == top;
  }

  /** Four alphabet characters decode to the bytes their values spell. */
  lemma DecodeFullQuantum(v0: Sextet, v1: Sextet, v2: Sextet, v3: Sextet)
    ensures DecodeQuantum(EncodeSextet(v0), EncodeSextet(v1), EncodeSextet(v2), EncodeSextet(v3))
      == Some(Quantum([v0 * 4 + v1 / 16, (v1 % 16) * 16 + v2 / 4, (v2 % 4) * 64 + v3], false))
  {
    DecodeEncodeSextet(v0);
    DecodeEncodeSextet(v1);
    DecodeEncodeSextet(v2);
    DecodeEncodeSextet(v3);
  }

  /** "xxx=" decodes to two bytes. */
  lemma DecodeOnePadQuantum(v0: Sextet, v1: Sextet, v2: Sextet)
    ensures DecodeQuantum(EncodeSextet(v0), EncodeSextet(v1), EncodeSextet(v2), Pad)
      == Some(Quantum([v0 * 4 + v1 / 16, (v1 % 16) * 16 + v2 / 4], true))
  {
    DecodeEncodeSextet(v0);
    DecodeEncodeSextet(v1);
    DecodeEncodeSextet(v2);
  }

  lemma GroupRoundTrip(b0: Byte, b1: Byte, b2: Byte)
    ensures var g := EncodeGroup(b0, b1, b2);
      DecodeQuantum(g[0], g[1], g[2], g[3]) == Some(Quantum([b0, b1, b2], false))
  {
    GroupArithmetic(b0, b1, b2);
    DecodeFullQuantum(b0 / 4, (b0 % 4) * 16 + b1 / 16, (b1 % 16) * 4 + b2 / 64, b2 % 64);
  }

  lemma OneByteRoundTrip(b0: Byte)
    ensures var e := Encode([b0]); DecodeQuantum(e[0], e[1], e[2], e[3]) == Some(Quantum([b0], true))
  {
    DecodeEncodeSextet(b0 / 4);
    DecodeEncodeSextet((b0 % 4) * 16);
    assert ((b0 % 4) * 16) / 16 == b0 % 4;
  }

  lemma TwoBytesRoundTrip(b0: Byte, b1: Byte)
    ensures var e := Encode([b0, b1]); DecodeQuantum(e[0], e[1], e[2], e[3]) == Some(Quantum([b0, b1], true))
  {
    GroupArithmetic(b0, b1, 0);
    DecodeOnePadQuantum(b0 / 4, (b0 % 4) * 16 + b1 / 16, (b1 % 16) * 4);
  }

  /** Decoding an encoding gives back the bytes. */
  lemma {:induction false} DecodeEncode(data: seq<Byte>)
    ensures Decode(Encode(data)) == Some(data)
    decreases |data|
  {
    if |data| == 0 {
    } else if |data| == 1 {
      OneByteRoundTrip(data[0]);
      assert data == [data[0]];
    } else if |data| == 2 {
      TwoBytesRoundTrip(data[0], data[1]);
      assert data == [data[0], data[1]];
    } else {
      var g := EncodeGroup(data[0], data[1], data[2]);
      GroupRoundTrip(data[0], data[1], data[2]);
      var q := Quantum([data[0], data[1], data[2]], false);
      DecodeEncode(data[3..]);
      DecodeUnpaddedQuantum(g, Encode(data[3..]), q);
      assert data == q.bytes + data[3..];
    }
  }

  /** An unpadded quantum followed by more input decodes to its bytes followed by the rest. */
  lemma DecodeUnpaddedQuantum(g: seq<Byte>, rest: seq<Byte>, q: Quantum)
    requires |g| == 4 && DecodeQuantum(g[0], g[1], g[2], g[3]) == Some(q) && !q.padded
    ensures Decode(g + rest) == match Decode(rest) case None => None case Some(r) => Some(q.bytes + r)
  {
    var s := g + rest;
    assert s[0] == g[0] && s[1] == g[1] && s[2] == g[2] && s[3] == g[3];
    assert s[4..] == rest;
    if rest == [] {
      assert q.bytes + [] == q.bytes;
    }
  }

  /** An encoding is made of alphabet characters followed by at most two '='. */
  lemma {:induction false} EncodeAlphabet(data: seq<Byte>)
    ensures forall i :: 0 <= i < |Encode(data)| ==>
      DecodeChar(Encode(data)[i]).Some? || (Encode(data)[i] == Pad && i >= |Encode(data)| - 2)
    decreases |data|
  {
    if |data| > 2 {
      EncodeAlphabet(data[3..]);
      var g := EncodeGroup(data[0], data[1], data[2]);
      forall i | 0 <= i < 4 ensures DecodeChar(g[i]).Some? {
        DecodeEncodeSextet(if i == 0 then data[0] / 4 else if i == 1 then (data[0] % 4) * 16 + data[1] / 16
          else if i == 2 then (data[1] % 16) * 4 + data[2] / 64 else data[2] % 64);
      }
    } else if |data| > 0 {
      DecodeEncodeSextet(data[0] / 4);
      if |data| == 1 {
        DecodeEncodeSextet((data[0] % 4) * 16);
      } else {
        DecodeEncodeSextet((data[0] % 4) * 16 + data[1] / 16);
        DecodeEncodeSextet((data[1] % 16) * 4);
      }
    }
  }

  /** A string whose length is not a multiple of four never decodes. */
  lemma {:induction false} DecodeNeedsWholeQuanta(s: seq<Byte>)
    requires |s| % 4 != 0
    ensures Decode(s).None?
    decreases |s|
  {
    if |s| >= 4 {
      DecodeNeedsWholeQuanta(s[4..]);
    }
  }

  /** A byte that is neither an alphabet character nor '=' makes the whole string undecodable. */
  lemma {:induction false} DecodeRejectsForeign(s: seq<Byte>, i: nat)
    requires i < |s| && s[i] != Pad && DecodeChar(s[i]).None?
    ensures Decode(s).None?
    decreases |s|
  {
    if |s| >= 4 && i >= 4 {
      DecodeRejectsForeign(s[4..], i - 4);
    }
  }
}
