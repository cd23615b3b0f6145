/** hazetunnel/api/injector.go: the payload is prepended to JavaScript responses and to every
    base64 `data:` script embedded in an HTML response. */
module Injector {
  import opened Wrappers
  import opened Text
  import opened Bytes
  import opened Base64
  import opened Headers

  /** The bytes of an ASCII literal. */
  function Ascii(s: string): (b: seq<Byte>)
    requires IsAscii(s)
    ensures |b| == |s| && forall i :: 0 <= i < |s| ==> b[i] == s[i] as int
  {
    seq(|s|, i requires 0 <= i < |s| => s[i] as int)
  }

  /** The two literal beginnings `data:(?:application|text)/javascript;base64,`. */
  const ApplicationPrefix: seq<Byte> := [100, 97, 116, 97, 58, 97, 112, 112, 108, 105, 99, 97, 116, 105, 111,
    110, 47, 106, 97, 118, 97, 115, 99, 114, 105, 112, 116, 59, 98, 97, 115, 101, 54, 52, 44]
  const TextPrefix: seq<Byte> := [100, 97, 116, 97, 58, 116, 101, 120, 116, 47, 106, 97, 118, 97, 115, 99,
    114, 105, 112, 116, 59, 98, 97, 115, 101, 54, 52, 44]

  /** The two byte strings spell the two literals. */
  lemma PrefixesSpellPattern()
    ensures ApplicationPrefix == Ascii("data:application/javascript;base64,")
    ensures TextPrefix == Ascii("data:text/javascript;base64,")
  {
  }

  /** `[\w+/=]`: RE2's `\w` is ASCII letters, digits and '_'. */
  predicate IsTailByte(b: Byte) {
    (48 <= b <= 57) || (65 <= b <= 90) || (97 <= b <= 122) || b == 95 || b == 43 || b == 47 || b == 61
  }

  /** The length of the longest run of tail bytes at the start of `s` (the greedy `+`). */
  function TailLength(s: seq<Byte>): (n: nat)
    ensures n <= |s|
    ensures forall i :: 0 <= i < n ==> IsTailByte(s[i])
    ensures n < |s| ==> !IsTailByte(s[n])
    decreases |s|
  {
    if |s| > 0 && IsTailByte(s[0]) then 1 + TailLength(s[1..]) else 0
  }

  /** The literal beginnings of the pattern, tried in order. */
  function Literals(): seq<seq<Byte>> {
    [ApplicationPrefix, TextPrefix]
  }

  /** Every literal is non-empty and begins with a tail byte ('d'), so no match can begin right
      after a greedy tail. */
  predicate ValidLiterals(literals: seq<seq<Byte>>) {
    forall i :: 0 <= i < |literals| ==> |literals[i]| > 0 && IsTailByte(literals[i][0])
  }

  lemma LiteralsValid()
    ensures ValidLiterals(Literals())
  {
  }

  /** The length of the first literal found at the start of `s`, or 0 when none is there. */
  function PrefixLength(literals: seq<seq<Byte>>, s: seq<Byte>): (n: nat)
    ensures n <= |s|
    decreases |literals|
  {
    if |literals| == 0 then 0
    else if |literals[0]| > 0 && StartsWith(s, literals[0]) then |literals[0]|
    else PrefixLength(literals[1..], s)
  }

  /** A found prefix is one of the literals, and so begins with a tail byte. */
  lemma {:induction false} PrefixIsLiteral(literals: seq<seq<Byte>>, s: seq<Byte>)
    requires PrefixLength(literals, s) > 0
    ensures exists i :: 0 <= i < |literals| && s[..PrefixLength(literals, s)] == literals[i]
    ensures ValidLiterals(literals) ==> IsTailByte(s[0])
    decreases |literals|
  {
    var n := PrefixLength(literals, s);
    if |literals[0]| > 0 && StartsWith(s, literals[0]) {
      assert s[..n] == literals[0];
    } else {
      PrefixIsLiteral(literals[1..], s);
      var i :| 0 <= i < |literals[1..]| && s[..n] == literals[1..][i];
      assert literals[i + 1] == literals[1..][i];
    }
  }

  /** A match of the pattern beginning at the start of `s`: its prefix and tail lengths. */
  function MatchAt(literals: seq<seq<Byte>>, s: seq<Byte>): (r: Option<(nat, nat)>)
    ensures r.Some? ==> 0 < r.value.0 && 0 < r.value.1 && r.value.0 + r.value.1 <= |s|
  {
    var p := PrefixLength(literals, s);
    if p == 0 then None
    else
      var t := TailLength(s[p..]);
      if t == 0 then None else Some((p, t))
  }

  /** The page cut into matches and the bytes between them. */
  datatype Piece = Literal(b: Byte) | Script(prefix: seq<Byte>, tail: seq<Byte>)

  /** The leftmost, non-overlapping matches, scanned left to right. */
  function Tokenize(literals: seq<seq<Byte>>, s: seq<Byte>): seq<Piece>
    decreases |s|
  {
    if |s| == 0 then []
    else
      match MatchAt(literals, s)
      case Some((p, t)) => [Script(s[..p], s[p..p + t])] + Tokenize(literals, s[p + t..])
      case None => [Literal(s[0])] + Tokenize(literals, s[1..])
  }

  function Render(pieces: seq<Piece>): seq<Byte>
    decreases |pieces|
  {
    if |pieces| == 0 then []
    else
      PieceBytes(pieces[0]) + Render(pieces[1..])
  }

  /** The bytes of one piece. */
  function PieceBytes(piece: Piece): seq<Byte> {
    match piece
    case Literal(b) => [b]
    case Script(p, t) => p + t
  }

  lemma RenderCons(piece: Piece, rest: seq<Piece>)
    ensures Render([piece] + rest) == PieceBytes(piece) + Render(rest)
  {
    assert ([piece] + rest)[1..] == rest;
  }

  lemma TokenizeLiteral(literals: seq<seq<Byte>>, s: seq<Byte>)
    requires |s| > 0 && MatchAt(literals, s).None?
    ensures Tokenize(literals, s) == [Literal(s[0])] + Tokenize(literals, s[1..])
  {
  }

  lemma TokenizeScript(literals: seq<seq<Byte>>, s: seq<Byte>, p: nat, t: nat)
    requires |s| > 0 && MatchAt(literals, s) == Some((p, t))
    ensures Tokenize(literals, s) == [Script(s[..p], s[p..p + t])] + Tokenize(literals, s[p + t..])
  {
  }

  /** Three consecutive slices give the sequence back. */
  lemma SliceThree(s: seq<Byte>, i: nat, j: nat)
    requires i <= j <= |s|
    ensures s[..i] + s[i..j] + s[j..] == s
  {
    assert s[..j] == s[..i] + s[i..j];
  }

  /** One script step of the cut: the match's bytes come back in front of the rest. */
  lemma RenderScriptStep(literals: seq<seq<Byte>>, s: seq<Byte>, p: nat, t: nat)
    requires |s| > 0 && MatchAt(literals, s) == Some((p, t))
    requires Render(Tokenize(literals, s[p + t..])) == s[p + t..]
    ensures Render(Tokenize(literals, s)) == s
  {
    var piece := Script(s[..p], s[p..p + t]);
    var rest := Tokenize(literals, s[p + t..]);
    TokenizeScript(literals, s, p, t);
    RenderCons(piece, rest);
    SliceThree(s, p, p + t);
  }

  /** One literal step of the cut. */
  lemma RenderLiteralStep(literals: seq<seq<Byte>>, s: seq<Byte>)
    requires |s| > 0 && MatchAt(literals, s).None?
    requires Render(Tokenize(literals, s[1..])) == s[1..]
    ensures Render(Tokenize(literals, s)) == s
  {
    TokenizeLiteral(literals, s);
    RenderCons(Literal(s[0]), Tokenize(literals, s[1..]));
    assert s == [s[0]] + s[1..];
  }

  /** Cutting loses and adds nothing. */
  lemma {:induction false} RenderTokenize(literals: seq<seq<Byte>>, s: seq<Byte>)
    ensures Render(Tokenize(literals, s)) == s
    decreases |s|
  {
    if |s| > 0 {
      var m := MatchAt(literals, s);
      if m.Some? {
        var (p, t) := m.value;
        var rest := s[p + t..];
        assert |rest| < |s|;
        RenderTokenize(literals, rest);
        RenderScriptStep(literals, s, p, t);
      } else {
        RenderTokenize(literals, s[1..]);
        RenderLiteralStep(literals, s);
      }
    }
  }

  /** A piece the scan can produce: one of the literals and a non-empty run of tail bytes. */
  predicate WellFormedScript(literals: seq<seq<Byte>>, p: Piece) {
    p.Script? ==>
      (exists i :: 0 <= i < |literals| && p.prefix == literals[i])
      && |p.tail| > 0 && forall i :: 0 <= i < |p.tail| ==> IsTailByte(p.tail[i])
  }

  /** Every match is well formed and greedy: what follows it is not a tail byte, so two matches
      never touch; and no match begins where the scan kept a literal byte. */
  lemma {:induction false} TokenizeShape(literals: seq<seq<Byte>>, s: seq<Byte>)
    requires ValidLiterals(literals)
    ensures forall i :: 0 <= i < |Tokenize(literals, s)| ==> WellFormedScript(literals, Tokenize(literals, s)[i])
    ensures forall i :: 0 <= i < |Tokenize(literals, s)| - 1 && Tokenize(literals, s)[i].Script? ==>
      Tokenize(literals, s)[i + 1].Literal? && !IsTailByte(Tokenize(literals, s)[i + 1].b)
    ensures forall i :: 0 <= i < |Tokenize(literals, s)| && Tokenize(literals, s)[i].Literal? ==>
      MatchAt(literals, Render(Tokenize(literals, s)[i..])).None?
    decreases |s|
  {
    if |s| > 0 {
      var ps := Tokenize(literals, s);
      var m := MatchAt(literals, s);
      if m.Some? {
        var p := m.value.0;
        var t := m.value.1;
        var rest := s[p + t..];
        TokenizeScript(literals, s, p, t);
        TokenizeShape(literals, rest);
        assert ps[1..] == Tokenize(literals, rest);
        assert WellFormedScript(literals, ps[0]) by {
          PrefixIsLiteral(literals, s);
          assert s[p..p + t] == s[p..][..t];
        }
        forall i | 0 <= i < |ps| ensures WellFormedScript(literals, ps[i]) {
          if i > 0 { assert ps[i] == Tokenize(literals, rest)[i - 1]; }
        }
        if |rest| > 0 {
          assert rest[0] == s[p..][t];
          assert !IsTailByte(rest[0]);
          if PrefixLength(literals, rest) > 0 {
            PrefixIsLiteral(literals, rest);
          }
          assert MatchAt(literals, rest).None?;
          assert ps[1] == Literal(rest[0]);
        }
        forall i | 0 <= i < |ps| && ps[i].Literal? ensures MatchAt(literals, Render(ps[i..])).None? {
          assert i > 0;
          assert ps[i..] == Tokenize(literals, rest)[i - 1..];
        }
      } else {
        TokenizeLiteral(literals, s);
        TokenizeShape(literals, s[1..]);
        assert ps[1..] == Tokenize(literals, s[1..]);
        forall i | 0 <= i < |ps| - 1 && ps[i].Script?
          ensures ps[i + 1].Literal? && !IsTailByte(ps[i + 1].b)
        {
          assert ps[i] == Tokenize(literals, s[1..])[i - 1];
          assert ps[i + 1] == Tokenize(literals, s[1..])[i];
        }
        forall i | 0 <= i < |ps| && ps[i].Literal? ensures MatchAt(literals, Render(ps[i..])).None? {
          if i == 0 {
            RenderTokenize(literals, s);
          } else {
            assert ps[i..] == Tokenize(literals, s[1..])[i - 1..];
          }
        }
      }
    }
  }

  /** The replacement of one piece: a match whose tail decodes gets the encoding of
      payload ++ script; any other match, and every literal byte, is kept. */
  function RewritePiece(piece: Piece, payload: seq<Byte>): seq<Byte> {
    match piece
    case Literal(b) => [b]
    case Script(prefix, tail) =>
      match Decode(tail)
      case None => prefix + tail
      case Some(script) => prefix + Encode(payload + script)
  }

  function RewriteAll(pieces: seq<Piece>, payload: seq<Byte>): seq<Byte>
    decreases |pieces|
  {
    if |pieces| == 0 then [] else RewritePiece(pieces[0], payload) + RewriteAll(pieces[1..], payload)
  }

  /** `injectPayloadIntoHTML`. */
  function InjectPayloadIntoHtml(html: seq<Byte>, payload: seq<Byte>): seq<Byte> {
    RewriteAll(Tokenize(Literals(), html), payload)
  }

  /** A rewritten script keeps its prefix, and its new tail decodes to payload ++ the old script. */
  lemma ScriptRewrite(prefix: seq<Byte>, tail: seq<Byte>, payload: seq<Byte>)
    ensures Decode(tail).None? ==> RewritePiece(Script(prefix, tail), payload) == prefix + tail
    ensures Decode(tail).Some? ==>
      var out := RewritePiece(Script(prefix, tail), payload);
      out[..|prefix|] == prefix && Decode(out[|prefix|..]) == Some(payload + Decode(tail).value)
  {
    if Decode(tail).Some? {
      var out := RewritePiece(Script(prefix, tail), payload);
      assert out[|prefix|..] == Encode(payload + Decode(tail).value);
      DecodeEncode(payload + Decode(tail).value);
    }
  }

  /** A tail holding '_' (admitted by `\w`, not by base64) is kept verbatim. */
  lemma UnderscoreTailKept(prefix: seq<Byte>, tail: seq<Byte>, payload: seq<Byte>, i: nat)
    requires i < |tail| && tail[i] == 95
    ensures RewritePiece(Script(prefix, tail), payload) == prefix + tail
  {
    DecodeRejectsForeign(tail, i);
  }

  /** Pieces whose tails do not decode are rewritten to what they were. */
  lemma {:induction false} RewriteUndecodable(pieces: seq<Piece>, payload: seq<Byte>)
    requires forall i :: 0 <= i < |pieces| && pieces[i].Script? ==> Decode(pieces[i].tail).None?
    ensures RewriteAll(pieces, payload) == Render(pieces)
    decreases |pieces|
  {
    if |pieces| > 0 {
      RewriteUndecodable(pieces[1..], payload);
    }
  }

  /** A page without a decodable embedded script is returned unchanged. */
  lemma UnchangedWithoutScripts(html: seq<Byte>, payload: seq<Byte>)
    requires forall i :: 0 <= i < |Tokenize(Literals(), html)| && Tokenize(Literals(), html)[i].Script? ==>
      Decode(Tokenize(Literals(), html)[i].tail).None?
    ensures InjectPayloadIntoHtml(html, payload) == html
  {
    RewriteUndecodable(Tokenize(Literals(), html), payload);
    RenderTokenize(Literals(), html);
  }

  /** The injected page is the original with each match replaced in place, left to right. */
  lemma {:induction false} RewriteAppend(a: seq<Piece>, b: seq<Piece>, payload: seq<Byte>)
    ensures RewriteAll(a + b, payload) == RewriteAll(a, payload) + RewriteAll(b, payload)
    decreases |a|
  {
    if |a| == 0 {
      assert a + b == b;
    } else {
      assert (a + b)[1..] == a[1..] + b;
      RewriteAppend(a[1..], b, payload);
    }
  }

  /** The value stored under the payload key of the request's context. */
  datatype ContextValue = Missing | NonString | Str(s: seq<Byte>)

  /** An `http.Response`: its header and its body (`None` for a nil body). */
  class Response {
    var header: Header
    var body: Option<seq<Byte>>

    constructor (header: Header, body: Option<seq<Byte>>)
      ensures this.header == header && this.body == body
    {
      this.header := header;
      this.body := body;
    }
  }

  /** The body `PayloadInjector` leaves: `readFails` says that reading the body failed. */
  function InjectedBody(body: Option<seq<Byte>>, contentType: string, payload: ContextValue, readFails: bool)
    : Option<seq<Byte>>
  {
    if body.None? || !payload.Str? || payload.s == [] || readFails then body
    else if StartsWith(contentType, "text/html") then Some(InjectPayloadIntoHtml(body.value, payload.s))
    else if StartsWith(contentType, "application/javascript") || StartsWith(contentType, "text/javascript")
    then Some(payload.s + body.value)
    else body
  }

  /** `PayloadInjector`: replaces the response's body in place and returns the same response. */
  method PayloadInjector(resp: Response?, payload: ContextValue, readFails: bool) returns (r: Response?)
    modifies resp
    ensures r == resp
    ensures resp != null ==> (resp.header == old(resp.header)
      && resp.body == InjectedBody(old(resp.body), Get(old(resp.header), "Content-Type"), payload, readFails))
  {
    if resp == null || resp.body.None? {
      return resp;
    }
    if !payload.Str? || payload.s == [] {
      return resp;
    }
    var contentType := Get(resp.header, "Content-Type");
    if StartsWith(contentType, "text/html") {
      if readFails {
        return resp;
      }
      resp.body := Some(InjectPayloadIntoHtml(resp.body.value, payload.s));
    } else if StartsWith(contentType, "application/javascript") || StartsWith(contentType, "text/javascript") {
      if readFails {
        return resp;
      }
      resp.body := Some(payload.s + resp.body.value);
    }
    return resp;
  }

  /** What each kind of response gets. */
  lemma InjectedBodyCases(body: seq<Byte>, contentType: string, payload: seq<Byte>)
    requires payload != []
    ensures StartsWith(contentType, "text/html") ==>
      InjectedBody(Some(body), contentType, Str(payload), false) == Some(InjectPayloadIntoHtml(body, payload))
    ensures StartsWith(contentType, "application/javascript") ==>
      InjectedBody(Some(body), contentType, Str(payload), false) == Some(payload + body)
    ensures StartsWith(contentType, "text/javascript") ==>
      InjectedBody(Some(body), contentType, Str(payload), false) == Some(payload + body)
    ensures (!StartsWith(contentType, "text/html") && !StartsWith(contentType, "application/javascript")
      && !StartsWith(contentType, "text/javascript")) ==>
      InjectedBody(Some(body), contentType, Str(payload), false) == Some(body)
    ensures InjectedBody(Some(body), contentType, Str([]), false) == Some(body)
    ensures InjectedBody(Some(body), contentType, NonString, false) == Some(body)
    ensures InjectedBody(None, contentType, Str(payload), false) == None
    ensures InjectedBody(Some(body), contentType, Str(payload), true) == Some(body)
  {
    if StartsWith(contentType, "application/javascript") {
      assert !StartsWith(contentType, "text/html") by {
        assert contentType[0] == 'a';
      }
    }
    if StartsWith(contentType, "text/javascript") {
      assert !StartsWith(contentType, "text/html") by {
        assert contentType[5] == 'j';
      }
    }
  }
}
