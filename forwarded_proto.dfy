/**
 * The protocol and base URL that the `/manifest` handler derives from the
 * `x-forwarded-proto` and `host` request headers (server/api/index.ts).
 *
 * Header values are `Option<string>`: `None` is what `headers.get` returns
 * for a header that is absent.
 */
module ForwardedProto {
  import opened Wrappers

  /** ECMAScript WhiteSpace and LineTerminator code points: what `trimStart` removes. */
  predicate IsWhiteSpace(c: char) {
    || c == '\t' || c == '\n' || c == '\U{000B}' || c == '\U{000C}' || c == '\r'
    || c == ' ' || c == '\U{00A0}' || c == '\U{1680}'
    || ('\U{2000}' <= c <= '\U{200A}')
    || c == '\U{2028}' || c == '\U{2029}' || c == '\U{202F}' || c == '\U{205F}'
    || c == '\U{3000}' || c == '\U{FEFF}'
  }

  /** `p` is `raw` with its whole leading run of white space, and nothing else, removed. */
  predicate TrimmedOf(raw: string, p: string) {
    && |p| <= |raw|
    && raw == raw[..|raw| - |p|] + p
    && (forall k :: 0 <= k < |raw| - |p| ==> IsWhiteSpace(raw[k]))
    && (p == [] || !IsWhiteSpace(p[0]))
  }

  /** `String.prototype.trimStart`: drops the leading white space and nothing else. */
  function TrimStart(s: string): (r: string)
    ensures TrimmedOf(s, r)
    decreases |s|
  {
    if s != [] && IsWhiteSpace(s[0]) then
      var r := TrimStart(s[1..]);
      TrimmedOfCons(s, r);
      r
    else
      TrimmedOfSelf(s);
      s
  }

  /** Putting one more white-space character in front keeps the trimmed result. */
  lemma TrimmedOfCons(s: string, r: string)
    requires s != [] && IsWhiteSpace(s[0])
    requires TrimmedOf(s[1..], r)
    ensures TrimmedOf(s, r)
  {
    var n := |s| - |r|;
    assert s[..n] == [s[0]] + s[1..][..n - 1];
    forall k | 0 <= k < n
      ensures IsWhiteSpace(s[k])
    {
      if k > 0 {
        assert s[k] == s[1..][k - 1];
      }
    }
  }

  /** A string without leading white space is its own trimmed form. */
  lemma TrimmedOfSelf(s: string)
    requires s == [] || !IsWhiteSpace(s[0])
    ensures TrimmedOf(s, s)
  {
    assert s[..0] + s == s;
  }

  /** `trimStart` leaves a string that does not start with white space as it is. */
  lemma TrimStartNoLeading(s: string)
    requires s == [] || !IsWhiteSpace(s[0])
    ensures TrimStart(s) == s
  {
  }

  /** `trimStart` skips a leading white-space character. */
  lemma TrimStartLeading(s: string)
    requires s != [] && IsWhiteSpace(s[0])
    ensures TrimStart(s) == TrimStart(s[1..])
  {
  }

  /** Joins pieces with `,` between consecutive ones (`Array.prototype.join(",")`). */
  function Join(pieces: seq<string>): string
    requires |pieces| >= 1
  {
    if |pieces| == 1 then pieces[0] else pieces[0] + "," + Join(pieces[1..])
  }

  /** Number of `,` characters in `s`. */
  function Commas(s: string): nat {
    if s == [] then 0 else (if s[0] == ',' then 1 else 0) + Commas(s[1..])
  }

  /**
   * `s.split(",")`: the maximal comma-free pieces of `s`, in order. There is
   * always at least one piece (the empty string splits into `[""]`), and
   * joining them back with `,` gives `s`.
   */
  function Split(s: string): (pieces: seq<string>)
    ensures |pieces| == Commas(s) + 1
    ensures forall i :: 0 <= i < |pieces| ==> ',' !in pieces[i]
    ensures Join(pieces) == s
  {
    if s == [] then [""]
    else if s[0] == ',' then
      var rest := Split(s[1..]);
      assert s == [','] + s[1..];
      [""] + rest
    else
      var rest := Split(s[1..]);
      var pieces := [[s[0]] + rest[0]] + rest[1..];
      assert pieces[1..] == rest[1..];
      assert s == [s[0]] + s[1..];
      pieces
  }

  /** `Split` is the inverse of `Join` on comma-free pieces. */
  lemma {:induction false} SplitJoin(pieces: seq<string>)
    requires |pieces| >= 1
    requires forall i :: 0 <= i < |pieces| ==> ',' !in pieces[i]
    ensures Split(Join(pieces)) == pieces
  {
    if |pieces| == 1 {
      SplitNoComma(pieces[0]);
    } else {
      SplitJoin(pieces[1..]);
      SplitPrefix(pieces[0], Join(pieces[1..]));
    }
  }

  /** A comma-free string is a single piece. */
  lemma {:induction false} SplitNoComma(s: string)
    requires ',' !in s
    ensures Split(s) == [s]
  {
    if s != [] {
      SplitNoComma(s[1..]);
    }
  }

  /** A string starting with a non-comma extends the first piece of the rest. */
  lemma SplitCons(s: string)
    requires s != [] && s[0] != ','
    ensures Split(s) == [[s[0]] + Split(s[1..])[0]] + Split(s[1..])[1..]
  {
  }

  /** Splitting `w + "," + rest` for a comma-free `w` yields `w` and then the pieces of `rest`. */
  lemma {:induction false} SplitPrefix(w: string, rest: string)
    requires ',' !in w
    ensures Split(w + "," + rest) == [w] + Split(rest)
  {
    var s := w + "," + rest;
    if w == [] {
      assert s[0] == ',' && s[1..] == rest;
    } else {
      var tail := w[1..] + "," + rest;
      SplitPrefix(w[1..], rest);
      assert w[0] in w;
      assert s[0] == w[0] && s[1..] == tail;
      SplitCons(s);
      assert [w[0]] + w[1..] == w;
    }
  }

  /** `headerValue || fallback` for a header that may be absent: an absent or empty value falls back. */
  function OrElse(value: Option<string>, fallback: string): (r: string)
    ensures value.Some? && value.value != "" ==> r == value.value
    ensures value.None? || value.value == "" ==> r == fallback
  {
    if value.Some? && value.value != "" then value.value else fallback
  }

  /** `xForwardedProto`: the header's value, or `"http"` when it is absent or empty. */
  function ForwardedProtoValue(header: Option<string>): (v: string)
    ensures header.None? || header == Some("") ==> v == "http"
    ensures header.Some? && header.value != "" ==> v == header.value
  {
    OrElse(header, "http")
  }

  /** `protocols`: the header value split on `,`, each piece with its leading white space trimmed. */
  function Protocols(header: Option<string>): (ps: seq<string>)
    ensures |ps| == |Split(ForwardedProtoValue(header))|
    ensures forall i :: 0 <= i < |ps| ==> ps[i] == TrimStart(Split(ForwardedProtoValue(header))[i])
  {
    var pieces := Split(ForwardedProtoValue(header));
    seq(|pieces|, i requires 0 <= i < |pieces| => TrimStart(pieces[i]))
  }

  /** `Array.prototype.find` with the predicate `el === target`. */
  function Find(ps: seq<string>, target: string): (r: Option<string>)
    ensures r.Some? <==> target in ps
    ensures r.Some? ==> r.value == target
  {
    if ps == [] then None
    else if ps[0] == target then Some(ps[0])
    else Find(ps[1..], target)
  }

  /** `protocols.find((el) => el === "https") || protocols[0]`. */
  function Protocol(header: Option<string>): (p: string)
    ensures p == "https" <==> "https" in Protocols(header)
    ensures "https" !in Protocols(header) ==> p == Protocols(header)[0]
  {
    var ps := Protocols(header);
    OrElse(Find(ps, "https"), ps[0])
  }

  /** A template literal renders an absent header as the text `null`. */
  function HostText(host: Option<string>): (text: string)
    ensures host.None? ==> text == "null"
    ensures host.Some? ==> text == host.value
  {
    match host
    case None => "null"
    case Some(h) => h
  }

  /** `baseUrlRaw`: the protocol, then `://`, then the host. */
  function BaseUrlRaw(protocol: string, host: Option<string>): (url: string)
    ensures |url| == |protocol| + 3 + |HostText(host)|
    ensures url[..|protocol|] == protocol
    ensures url[|protocol|..|protocol| + 3] == "://"
    ensures url[|protocol| + 3..] == HostText(host)
  {
    protocol + "://" + HostText(host)
  }

  /** The base URL the `/manifest` handler derives from the two request headers. */
  function ManifestBaseUrl(forwardedProto: Option<string>, host: Option<string>): (url: string)
    ensures "https" in Protocols(forwardedProto) ==> url == BaseUrlRaw("https", host)
    ensures forwardedProto.None? || forwardedProto == Some("") ==> url == BaseUrlRaw("http", host)
    ensures "https" !in Protocols(forwardedProto) ==> url == BaseUrlRaw(Protocols(forwardedProto)[0], host)
  {
    var url := BaseUrlRaw(Protocol(forwardedProto), host);
    assert forwardedProto.None? || forwardedProto == Some("") ==> url == BaseUrlRaw("http", host) by {
      if forwardedProto.None? || forwardedProto == Some("") {
        DefaultProtocol(forwardedProto);
      }
    }
    url
  }

  /** An absent or empty `x-forwarded-proto` header selects `http`. */
  lemma DefaultProtocol(header: Option<string>)
    requires header.None? || header == Some("")
    ensures Protocols(header) == ["http"]
    ensures Protocol(header) == "http"
  {
    assert ForwardedProtoValue(header) == "http";
    SplitNoComma("http");
    TrimStartNoLeading("http");
    var ps := Protocols(header);
    assert ps == ["http"];
    assert Find(ps, "https") == None;
  }

  /**
   * The pieces, in order, are exactly the comma-separated parts of the
   * header value with only their leading white space removed, and there is
   * always at least one.
   */
  lemma ProtocolPieces(header: Option<string>)
    ensures var raws := Split(ForwardedProtoValue(header));
      && Join(raws) == ForwardedProtoValue(header)
      && |Protocols(header)| == |raws| == Commas(ForwardedProtoValue(header)) + 1
      && forall i :: 0 <= i < |raws| ==> TrimmedOf(raws[i], Protocols(header)[i])
  {
  }

  /** With two raw pieces, the protocols are those two pieces trimmed. */
  lemma TwoPieces(header: Option<string>, a: string, b: string)
    requires Split(ForwardedProtoValue(header)) == [a, b]
    ensures Protocols(header) == [TrimStart(a), TrimStart(b)]
  {
  }

  /** A proxy chain reporting `http, https` gives the pieces `http` and `https`. */
  lemma ProxyChainPieces()
    ensures Protocols(Some("http, https")) == ["http", "https"]
  {
    ProxyChainSplit();
    ProxyChainTrim();
    TwoPieces(Some("http, https"), "http", " https");
  }

  lemma ProxyChainTrim()
    ensures TrimStart("http") == "http" && TrimStart(" https") == "https"
  {
    TrimStartNoLeading("http");
    TrimStartLeading(" https");
    assert " https"[1..] == "https";
    TrimStartNoLeading("https");
  }

  lemma ProxyChainSplit()
    ensures Split("http, https") == ["http", " https"]
  {
    var raws := ["http", " https"];
    assert Join(raws[1..]) == " https";
    assert Join(raws) == "http, https";
    SplitJoin(raws);
  }

  /** Leading white space before `https` is ignored, so that proxy chain yields `https`. */
  lemma ProxyChainPrefersHttps(host: string)
    ensures ManifestBaseUrl(Some("http, https"), Some(host)) == "https" + "://" + host
  {
    ProxyChainPieces();
    assert Find(["http", "https"], "https") == Some("https");
  }

  /** Trailing white space is not trimmed, so in `https ,http` the piece `https ` is not `https` and is chosen as the first piece. */
  lemma TrailingSpaceKept(host: string)
    ensures ManifestBaseUrl(Some("https ,http"), Some(host)) == "https " + "://" + host
  {
    TrailingSpacePieces();
    assert Find(["https ", "http"], "https") == None;
  }

  lemma TrailingSpacePieces()
    ensures Protocols(Some("https ,http")) == ["https ", "http"]
  {
    TrailingSpaceSplit();
    TrimStartNoLeading("https ");
    TrimStartNoLeading("http");
    TwoPieces(Some("https ,http"), "https ", "http");
  }

  lemma TrailingSpaceSplit()
    ensures Split("https ,http") == ["https ", "http"]
  {
    var raws := ["https ", "http"];
    assert Join(raws[1..]) == "http";
    assert Join(raws) == "https ,http";
    SplitJoin(raws);
  }

  /** A leading comma makes the first piece empty, and with no `https` piece the protocol is empty. */
  lemma EmptyFirstPiece(host: string)
    ensures ManifestBaseUrl(Some(",http"), Some(host)) == "://" + host
  {
    var raws := ["", "http"];
    assert Join(raws[1..]) == "http";
    assert Join(raws) == ",http";
    SplitJoin(raws);
    TrimStartNoLeading("");
    TrimStartNoLeading("http");
    TwoPieces(Some(",http"), "", "http");
    assert Find(["", "http"], "https") == None;
  }
}
