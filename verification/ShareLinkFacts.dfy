/** Printing a link and reading it back gives what was asked for, exactly when the host is readable. */
module ShareLinkFacts {
  import opened Prelude
  import opened Text
  import opened PercentEncoding
  import opened ShareLink

  // ---------------------------------------------------------------- the query

  predicate InQuery(c: char) {
    Inert(c) || c == '=' || c == '&'
  }

  lemma ReadPrintedPair(p: (string, string))
    ensures ReadPair(Pair(p)) == p
    ensures Pair(p) != "" && forall c | c in Pair(p) :: Inert(c) || c == '='
  {
    QuoteIsInert(p.0);
    QuoteIsInert(p.1);
    CutFinds(Quote(p.0), '=', Quote(p.1));
    UnquoteQuoted(p.0);
    UnquoteQuoted(p.1);
  }

  lemma {:induction false} JoinedIsPlain(params: Params)
    requires params != []
    ensures Joined(params) != "" && forall c | c in Joined(params) :: InQuery(c)
  {
    hide Pair, Unreserved;
    ReadPrintedPair(params[0]);
    if |params| > 1 {
      JoinedIsPlain(params[1..]);
    }
  }

  lemma ReadPairsFirst(a: string, b: string)
    requires '&' !in a
    ensures ReadPairs(a + "&" + b) == [ReadPair(a)] + ReadPairs(b)
  {
    hide ReadPair;
    CutFinds(a, '&', b);
    assert ['&'] == "&";
  }

  lemma NoAmpersand(p: (string, string))
    ensures '&' !in Pair(p)
  {
    assert !Inert('&');
    hide Pair, Inert;
    ReadPrintedPair(p);
  }

  lemma JoinedFirst(params: Params)
    requires |params| > 1
    ensures ReadPairs(Joined(params)) == [params[0]] + ReadPairs(Joined(params[1..]))
  {
    hide Pair, ReadPair, ReadPairs;
    NoAmpersand(params[0]);
    ReadPrintedPair(params[0]);
    ReadPairsFirst(Pair(params[0]), Joined(params[1..]));
  }

  lemma {:induction false} ReadJoined(params: Params)
    requires params != []
    ensures ReadPairs(Joined(params)) == params
  {
    var p := params[0];
    if |params| == 1 {
      hide Pair, ReadPair, Inert;
      NoAmpersand(p);
      ReadPrintedPair(p);
      CutMisses(Pair(p), '&');
      assert params == [p];
    } else {
      hide Joined, ReadPairs;
      JoinedFirst(params);
      ReadJoined(params[1..]);
      assert params == [p] + params[1..];
    }
  }

  /** Any list of parameters comes back in order, without those whose value is empty. */
  lemma QueryRoundTrip(params: Params)
    ensures ReadQuery(BuildQuery(params)) == Kept(params)
    ensures forall c | c in BuildQuery(params) :: InQuery(c)
  {
    if Kept(params) != [] {
      ReadJoined(Kept(params));
      JoinedIsPlain(Kept(params));
    }
  }

  // ---------------------------------------------------------------- host and port

  lemma ReadPrintedPort(port: nat)
    ensures ReadPort(Digits(port)) == Some(port)
    ensures forall c | c in Digits(port) :: IsDigit(c)
  {
    ValueOfDigits(port);
  }

  /** A name is made of characters that delimit nothing. */
  lemma {:induction false} RegNameIsPlain(s: string)
    requires RegName(s)
    ensures forall c | c in s :: Unreserved(c) || SubDelim(c) || c == '%'
    decreases |s|
  {
    if s != "" {
      if Escaped(s).Some? && RegName(s[3..]) {
        RegNameIsPlain(s[3..]);
        EscapeChars(s);
        assert s == [s[0], s[1], s[2]] + s[3..];
      } else {
        RegNameIsPlain(s[1..]);
        assert s == [s[0]] + s[1..];
      }
    }
  }

  lemma NoRegName(s: string, c: char)
    requires c in s && !Unreserved(c) && !SubDelim(c) && c != '%'
    ensures !RegName(s)
  {
    hide RegName;
    if RegName(s) { RegNameIsPlain(s); }
  }

  lemma EscapeChars(s: string)
    requires Escaped(s).Some?
    ensures s[0] == '%' && Unreserved(s[1]) && Unreserved(s[2])
  {
  }

  /** Characters that neither names nor literals may hold. */
  lemma Delimiters(c: char)
    requires c in "?#@[]"
    ensures !Unreserved(c) && !SubDelim(c) && c != '%' && c != ':'
  {
  }

  lemma ReadableIsPlain(server: string)
    requires Readable(server)
    ensures '?' !in server && '#' !in server && '@' !in server
  {
    Delimiters('?');
    Delimiters('#');
    Delimiters('@');
    hide Unreserved, SubDelim, RegName;
    if server != "" && server[0] == '[' {
      var inner := Bare(server);
      assert server == "[" + inner + "]";
      assert forall c | c in server :: c in inner || c == '[' || c == ']';
    } else {
      RegNameIsPlain(server);
    }
  }

  /** Host and port are read back exactly when the server text is readable. */
  lemma ReadServerIff(server: string, port: nat)
    requires server != ""
    ensures ReadServer(server + ":" + Digits(port)) == Some((Bare(server), port)) <==> Readable(server)
  {
    hide ReadServer, RegName, Literal;
    if server[0] != '[' {
      ReadName(server, port);
    } else if Bracketed(server) && ']' !in Bare(server) {
      ReadLiteral(server, port);
    } else {
      ReadServerLoses(server, port);
      LostIsUnreadable(server);
    }
  }

  lemma LostIsUnreadable(server: string)
    requires server != "" && server[0] == '[' && !(Bracketed(server) && ']' !in Bare(server))
    ensures !Readable(server)
  {
    Delimiters(']');
    hide Unreserved, SubDelim, RegName;
  }

  lemma ReadName(server: string, port: nat)
    requires server != "" && server[0] != '['
    ensures ReadServer(server + ":" + Digits(port)) == if RegName(server) then Some((server, port)) else None
  {
    hide RegName, CutLast;
    var s := server + ":" + Digits(port);
    ReadPrintedPort(port);
    assert s[0] == server[0];
    assert s == server + [':'] + Digits(port);
    CutLastFinds(server, ':', Digits(port));
  }

  lemma ReadLiteral(server: string, port: nat)
    requires Bracketed(server) && ']' !in Bare(server)
    ensures ReadServer(server + ":" + Digits(port)) ==
            if Literal(Bare(server)) then Some((Bare(server), port)) else None
  {
    hide Literal, Cut;
    var s, inner := server + ":" + Digits(port), Bare(server);
    ReadPrintedPort(port);
    assert server == "[" + inner + "]";
    assert s[0] == '[' && s[1..] == inner + [']'] + (":" + Digits(port));
    CutFinds(inner, ']', ":" + Digits(port));
    assert (":" + Digits(port))[1..] == Digits(port);
  }

  lemma ReadServerHost(s: string)
    requires ReadServer(s).Some?
    ensures forall c | c in ReadServer(s).value.0 :: c in s
  {
    if s[0] == '[' {
      CutBefore(s[1..], ']');
    } else {
      CutLastBefore(s, ':');
    }
  }

  /** A name that opens with a bracket, or a literal with a bracket inside, is never read back whole. */
  lemma ReadServerLoses(server: string, port: nat)
    requires server != "" && server[0] == '[' && !(Bracketed(server) && ']' !in Bare(server))
    ensures var r := ReadServer(server + ":" + Digits(port)); r.Some? ==> r.value.0 != Bare(server)
  {
    hide Literal, RegName;
    var s := server + ":" + Digits(port);
    ReadPrintedPort(port);
    assert s[0] == '[' && s[1..] == server[1..] + ":" + Digits(port);
    CutBefore(s[1..], ']');
  }

  // ---------------------------------------------------------------- the whole link

  lemma AuthorityIsPlain(account: string, server: string, port: nat)
    requires forall c | c in account :: Unreserved(c)
    requires '?' !in server && '#' !in server
    ensures var a := Authority(account, server, port); '?' !in a && '#' !in a
  {
    ReadPrintedPort(port);
  }

  /** What follows the scheme, as one line of text. */
  function Body(account: string, server: string, port: nat, params: Params): string {
    Authority(account, server, port) + "?" + BuildQuery(params)
  }

  lemma BodyIsPlain(account: string, server: string, port: nat, params: Params)
    requires forall c | c in account :: Unreserved(c)
    requires '?' !in server && '#' !in server
    ensures '#' !in Body(account, server, port, params)
  {
    AuthorityIsPlain(account, server, port);
    QueryRoundTrip(params);
    assert !InQuery('#');
    hide Authority, BuildQuery, InQuery;
  }

  /** The text after the scheme. */
  lemma UriBody(account: string, server: string, port: nat, params: Params, remark: string)
    ensures var uri := Uri(account, server, port, params, remark);
      && "vless://" <= uri
      && uri[8..] == Body(account, server, port, params) + if remark == "" then "" else "#" + Quote(remark)
  {
    var uri, tail := Uri(account, server, port, params, remark), if remark == "" then "" else "#" + Quote(remark);
    var body := Body(account, server, port, params);
    Reassociate("vless://" + Authority(account, server, port), "?", BuildQuery(params));
    Reassociate("vless://", Authority(account, server, port), "?" + BuildQuery(params));
    Reassociate(Authority(account, server, port), "?", BuildQuery(params));
    Reassociate("vless://", body, tail);
    assert uri == "vless://" + (body + tail);
    assert ("vless://" + (body + tail))[8..] == body + tail;
  }

  lemma ReadBody(body: string, remark: string)
    requires '#' !in body
    ensures var whole := Cut(body + if remark == "" then "" else "#" + Quote(remark), '#');
      whole.before == body && Unquote(OrEmpty(whole.after)) == remark
  {
    if remark == "" {
      CutMisses(body, '#');
      assert body + "" == body;
    } else {
      CutFinds(body, '#', Quote(remark));
      Reassociate(body, "#", Quote(remark));
      UnquoteQuoted(remark);
      hide Quote, Unquote, Cut;
    }
  }

  lemma ReadAuthority(account: string, server: string, port: nat, params: Params)
    requires forall c | c in account :: Unreserved(c)
    requires '?' !in server && '#' !in server
    ensures Cut(Body(account, server, port, params), '?')
      == Parts(Authority(account, server, port), Some(BuildQuery(params)))
    ensures Cut(Authority(account, server, port), '@') == Parts(account, Some(server + ":" + Digits(port)))
  {
    AuthorityIsPlain(account, server, port);
    CutFinds(Authority(account, server, port), '?', BuildQuery(params));
    assert Authority(account, server, port) == account + ['@'] + (server + ":" + Digits(port));
    CutFinds(account, '@', server + ":" + Digits(port));
  }

  lemma ReadLinkIs(account: string, server: string, port: nat, params: Params, remark: string)
    requires forall c | c in account :: Unreserved(c)
    requires '?' !in server && '#' !in server
    ensures ReadLink(Uri(account, server, port, params, remark))
      == match ReadServer(server + ":" + Digits(port))
         case None => None
         case Some((host, n)) => Some(Link(account, host, n, Kept(params), remark))
  {
    UriBody(account, server, port, params, remark);
    BodyIsPlain(account, server, port, params);
    ReadBody(Body(account, server, port, params), remark);
    ReadAuthority(account, server, port, params);
    QueryRoundTrip(params);
    hide Uri, Body, Authority, Cut, ReadServer, ReadQuery, BuildQuery, Unquote, Quote, Kept, Unreserved, Digits;
  }

  /** Whatever link is read, the host has no query or fragment delimiter in it. */
  lemma ReadHostIsPlain(s: string)
    requires ReadLink(s).Some?
    ensures '?' !in ReadLink(s).value.host && '#' !in ReadLink(s).value.host
  {
    var whole := Cut(s[8..], '#');
    CutBefore(s[8..], '#');
    var asked := Cut(whole.before, '?');
    CutBefore(whole.before, '?');
    CutBefore(asked.before, '@');
    var rest := Cut(asked.before, '@').after.value;
    ReadServerHost(rest);
    hide Cut, ReadServer, ReadQuery, Unquote;
    var host := ReadLink(s).value.host;
    assert forall c | c in host :: c in rest;
    assert forall c | c in rest :: c in asked.before;
    assert forall c | c in asked.before :: c in whole.before;
  }

  /** A printed link reads back as what it was printed from, exactly when its server text is readable. */
  lemma UriRoundTrip(account: string, server: string, port: nat, params: Params, remark: string)
    requires forall c | c in account :: Unreserved(c)
    requires server != ""
    ensures ReadLink(Uri(account, server, port, params, remark))
        == Some(Link(account, Bare(server), port, Kept(params), remark))
      <==> Readable(server)
  {
    hide Uri, ReadLink, ReadServer, Readable, Bare;
    if '?' in server || '#' in server {
      BareKeepsDelimiters(server);
      if Readable(server) { ReadableIsPlain(server); }
      if ReadLink(Uri(account, server, port, params, remark)).Some? {
        ReadHostIsPlain(Uri(account, server, port, params, remark));
      }
    } else {
      ReadLinkIs(account, server, port, params, remark);
      ReadServerIff(server, port);
    }
  }

  lemma BareKeepsDelimiters(server: string)
    requires '?' in server || '#' in server
    ensures '?' in Bare(server) || '#' in Bare(server)
  {
  }

  lemma CanCarryIsReadable(t: Target)
    requires FormatHost(t.host, t.isV6).Success?
    ensures var server, host := FormatHost(t.host, t.isV6).value, Strip(t.host);
      && server != "" && Bare(server) == Bare(host)
      && (Readable(server) <==> CanCarry(host, t.isV6(host)))
  {
    hide Strip, Readable, CanCarry, HasSpace, Bare;
    var host := Strip(t.host);
    if !Bracketed(host) && t.isV6(host) {
      WrappedHost(host);
    } else {
      PlainHost(host);
    }
  }

  /** An unbracketed IPv6 address goes into brackets. */
  lemma WrappedHost(host: string)
    requires host != "" && !Bracketed(host)
    ensures var server := "[" + host + "]";
      Bare(server) == Bare(host) && (Readable(server) <==> CanCarry(host, true))
  {
    var server := "[" + host + "]";
    assert server[0] == '[' && server[|server| - 1] == ']' && server[1..|server| - 1] == host;
  }

  lemma PlainHost(host: string)
    requires host != ""
    ensures Readable(host) <==> CanCarry(host, false)
    ensures Bracketed(host) ==> CanCarry(host, true) == CanCarry(host, false)
  {
    if host[0] == '[' { NoRegName(host, '['); }
  }

  /** What both builders ask of the account, the host and the port. */
  predicate TargetOk(t: Target) {
    var host := Strip(t.host);
    && t.account.Some? && host != "" && !HasSpace(host) && '/' !in host && 1 <= t.port <= 65535
  }

  lemma CheckedWhen(t: Target)
    ensures Checked(t).Success? <==> TargetOk(t)
  {
    hide HasSpace;
  }

  /** A profile the server can be reached with. */
  predicate ProfileOk(p: RealityProfile) {
    p.publicKey != "" && p.serverName != "" && p.flow in {"", "xtls-rprx-vision"} && p.networkAlias in {"tcp", "raw"}
  }

  /**
   * A REALITY link is printed exactly for a sound target and profile. It then reads back
   * as the same account, host, port, ordered non-empty parameters and remark, for every
   * value of every field, exactly when the host can be carried.
   */
  lemma RealityRoundTrip(t: Target, p: RealityProfile)
    ensures BuildRealityUri(t, p).Success? <==> TargetOk(t) && ProfileOk(p)
    ensures BuildRealityUri(t, p).Success? ==>
      var host := Strip(t.host);
      ReadLink(BuildRealityUri(t, p).value)
        == Some(Link(UuidText(t.account.value), Bare(host), t.port, Kept(RealityParams(p)), t.remark))
      <==> CanCarry(host, t.isV6(host))
  {
    CheckedWhen(t);
    hide Uri, ReadLink, Readable, CanCarry, FormatHost, UuidText, RealityParams, Kept, Strip, Bare, TargetOk;
    if BuildRealityUri(t, p).Success? {
      CanCarryIsReadable(t);
      UriRoundTrip(UuidText(t.account.value), FormatHost(t.host, t.isV6).value, t.port, RealityParams(p), t.remark);
    }
  }

  predicate PathOk(path: string) {
    path != "" && !HasSpace(Strip(path))
  }

  lemma NormalisedWhen(path: string)
    ensures NormalisePath(path).Success? <==> PathOk(path)
    ensures NormalisePath(path).Success? ==>
      var n := NormalisePath(path).value; n != "" && n[0] == '/' && (n == Strip(path) || n == "/" + Strip(path))
  {
    var cleaned := Strip(path);
    if cleaned == "" || cleaned[0] != '/' {
      var rooted := "/" + cleaned;
      assert forall i | 0 <= i < |cleaned| :: rooted[i + 1] == cleaned[i];
    }
  }

  lemma WebSocketRoundTrip(t: Target, p: WebSocketProfile)
    ensures BuildWebSocketUri(t, p).Success? <==> TargetOk(t) && p.host != "" && PathOk(p.path)
    ensures BuildWebSocketUri(t, p).Success? ==>
      var host, params := Strip(t.host), WebSocketParams(p, NormalisePath(p.path).value);
      ReadLink(BuildWebSocketUri(t, p).value)
        == Some(Link(UuidText(t.account.value), Bare(host), t.port, Kept(params), t.remark))
      <==> CanCarry(host, t.isV6(host))
  {
    CheckedWhen(t);
    NormalisedWhen(p.path);
    hide Uri, ReadLink, Readable, CanCarry, FormatHost, UuidText, WebSocketParams, NormalisePath, Kept, Strip, Bare,
      TargetOk, PathOk;
    if BuildWebSocketUri(t, p).Success? {
      var params := WebSocketParams(p, NormalisePath(p.path).value);
      CanCarryIsReadable(t);
      UriRoundTrip(UuidText(t.account.value), FormatHost(t.host, t.isV6).value, t.port, params, t.remark);
    }
  }

  // ---------------------------------------------------------------- what a client finds

  /** The value a client sees for `key`, empty when it is not there. */
  function Get(params: Params, key: string): string {
    if params == [] then "" else if params[0].0 == key then params[0].1 else Get(params[1..], key)
  }

  predicate DistinctKeys(params: Params) {
    forall i, j | 0 <= i < j < |params| :: params[i].0 != params[j].0
  }

  lemma {:induction false} NotKept(params: Params, key: string)
    requires forall i | 0 <= i < |params| :: params[i].0 != key
    ensures Get(Kept(params), key) == ""
  {
    if params != [] {
      NotKept(params[1..], key);
    }
  }

  lemma {:induction false} KeptGet(params: Params, i: nat)
    requires DistinctKeys(params) && i < |params|
    ensures Get(Kept(params), params[i].0) == params[i].1
  {
    if i > 0 {
      KeptGet(params[1..], i - 1);
    } else {
      NotKept(params[1..], params[0].0);
    }
  }

  lemma RealityParamsKept(p: RealityProfile)
    ensures forall i | 0 <= i < |RealityParams(p)| ::
              Get(Kept(RealityParams(p)), RealityParams(p)[i].0) == RealityParams(p)[i].1
  {
    var params := RealityParams(p);
    assert DistinctKeys(params);
    hide Get, Kept, DistinctKeys, RealityParams;
    forall i | 0 <= i < |params| ensures Get(Kept(params), params[i].0) == params[i].1 {
      KeptGet(params, i);
    }
  }

  /** The values a client needs, each under the key it looks for. */
  predicate Carries(q: Params, p: RealityProfile) {
    && Get(q, "security") == "reality" && Get(q, "encryption") == "none" && Get(q, "headerType") == "none"
    && Get(q, "type") == p.networkAlias && Get(q, "flow") == p.flow && Get(q, "fp") == p.fingerprint
    && Get(q, "pbk") == p.publicKey && Get(q, "sid") == p.shortId
    && Get(q, "sni") == p.serverName && Get(q, "spx") == p.spiderX
  }

  lemma KeptCarries(p: RealityProfile)
    ensures Carries(Kept(RealityParams(p)), p)
  {
    hide Get, Kept;
    RealityParamsKept(p);
    var params := RealityParams(p);
    assert params[0].0 == "type" && params[1].0 == "security" && params[2].0 == "encryption";
    assert params[3].0 == "headerType" && params[4].0 == "flow" && params[5].0 == "fp";
    assert params[6].0 == "pbk" && params[7].0 == "sid";
    assert params[8].0 == "sni" && params[9].0 == "spx";
  }

  /** Every field of the profile reaches the client under its own key. */
  lemma RealityLinkMeans(t: Target, p: RealityProfile)
    requires TargetOk(t) && ProfileOk(p) && CanCarry(Strip(t.host), t.isV6(Strip(t.host)))
    ensures var link := ReadLink(BuildRealityUri(t, p).value); link.Some? && Carries(link.value.params, p)
  {
    hide BuildRealityUri, ReadLink, CanCarry, TargetOk, ProfileOk, Kept, RealityParams, Carries, Strip, UuidText, Bare;
    RealityRoundTrip(t, p);
    KeptCarries(p);
  }

  /** The values a WebSocket client needs; without TLS there is no server name and no fingerprint. */
  predicate WebSocketCarries(q: Params, p: WebSocketProfile) {
    && Get(q, "type") == "ws" && Get(q, "encryption") == "none" && Get(q, "flow") == ""
    && Get(q, "security") == (if p.tls then "tls" else "none")
    && Get(q, "host") == p.host
    && Get(q, "path") == (if "/" <= Strip(p.path) then Strip(p.path) else "/" + Strip(p.path))
    && Get(q, "sni") == (if p.tls then p.host else "") && Get(q, "fp") == (if p.tls then p.fingerprint else "")
  }

  lemma WebSocketParamsCarry(p: WebSocketProfile, path: string)
    ensures var q := Kept(WebSocketParams(p, path));
      && Get(q, "type") == "ws" && Get(q, "encryption") == "none" && Get(q, "flow") == ""
      && Get(q, "security") == (if p.tls then "tls" else "none")
      && Get(q, "host") == p.host && Get(q, "path") == path
      && Get(q, "sni") == (if p.tls then p.host else "") && Get(q, "fp") == (if p.tls then p.fingerprint else "")
  {
    var params := WebSocketParams(p, path);
    assert DistinctKeys(params);
    assert params[0].0 == "type" && params[1].0 == "security" && params[2].0 == "encryption";
    assert params[3].0 == "path" && params[4].0 == "host";
    NotKept(params, "flow");
    if p.tls {
      assert params[5].0 == "sni" && params[6].0 == "fp";
    } else {
      NotKept(params, "sni");
      NotKept(params, "fp");
    }
    hide Get, Kept, DistinctKeys, WebSocketParams;
    forall i | 0 <= i < |params| ensures Get(Kept(params), params[i].0) == params[i].1 {
      KeptGet(params, i);
    }
  }

  lemma NormalisedIs(path: string)
    requires NormalisePath(path).Success?
    ensures NormalisePath(path).value == if "/" <= Strip(path) then Strip(path) else "/" + Strip(path)
  {
  }

  /** The same for WebSocket links, with the path rooted. */
  lemma WebSocketLinkMeans(t: Target, p: WebSocketProfile)
    requires TargetOk(t) && p.host != "" && PathOk(p.path) && CanCarry(Strip(t.host), t.isV6(Strip(t.host)))
    ensures var link := ReadLink(BuildWebSocketUri(t, p).value); link.Some? && WebSocketCarries(link.value.params, p)
  {
    hide BuildWebSocketUri, ReadLink, CanCarry, TargetOk, PathOk, Kept, WebSocketParams, NormalisePath, Strip, UuidText,
      Bare, Get;
    WebSocketRoundTrip(t, p);
    NormalisedWhen(p.path);
    NormalisedIs(p.path);
    WebSocketParamsCarry(p, NormalisePath(p.path).value);
  }

  // ---------------------------------------------------------------- the account

  function HexDigit(c: char): Option<nat> {
    var n := c as int;
    if 48 <= n <= 57 then Some(n - 48) else if 97 <= n <= 102 then Some(n - 87) else None
  }

  /** The hexadecimal digits of a text, without its hyphens. */
  function ReadHexes(s: string): Option<seq<nat>> {
    if s == "" then Some([])
    else if s[0] == '-' then ReadHexes(s[1..])
    else
      match (HexDigit(s[0]), ReadHexes(s[1..]))
      case (Some(d), Some(rest)) => Some([d] + rest)
      case _ => None
  }

  lemma {:induction false} ReadBoth(a: string, b: string)
    requires ReadHexes(a).Some? && ReadHexes(b).Some?
    ensures ReadHexes(a + b) == Some(ReadHexes(a).value + ReadHexes(b).value)
  {
    if a == "" {
      assert a + b == b && [] + ReadHexes(b).value == ReadHexes(b).value;
    } else {
      assert (a + b)[1..] == a[1..] + b;
      ReadBoth(a[1..], b);
      if a[0] != '-' {
        var d, rest := HexDigit(a[0]).value, ReadHexes(a[1..]).value;
        assert [d] + rest + ReadHexes(b).value == [d] + (rest + ReadHexes(b).value);
      }
    }
  }

  lemma {:induction false} ReadPrintedHexes(u: seq<nat>)
    requires forall i | 0 <= i < |u| :: u[i] < 16
    ensures ReadHexes(Hexes(u)) == Some(u) && |Hexes(u)| == |u|
  {
    if u != [] {
      ReadPrintedHexes(u[1..]);
      assert ([HexChar(u[0])] + Hexes(u[1..]))[1..] == Hexes(u[1..]);
      assert [u[0]] + u[1..] == u;
    }
  }

  function Hyphenated(a: string, b: string): string {
    a + "-" + b
  }

  lemma ReadHyphenated(a: string, b: string)
    requires ReadHexes(a).Some? && ReadHexes(b).Some?
    ensures ReadHexes(Hyphenated(a, b)) == Some(ReadHexes(a).value + ReadHexes(b).value)
  {
    assert "-"[1..] == "";
    ReadBoth(a, "-");
    ReadBoth(a + "-", b);
    assert ReadHexes(a).value + [] == ReadHexes(a).value;
  }

  lemma FivePieces(u: seq<nat>)
    requires |u| == 32
    ensures u[..8] + u[8..12] + u[12..16] + u[16..20] + u[20..] == u
  {
    assert u[..8] + u[8..12] == u[..12];
    assert u[..12] + u[12..16] == u[..16];
    assert u[..16] + u[16..20] == u[..20];
  }

  lemma ReadFive(a: string, b: string, c: string, d: string, e: string)
    requires ReadHexes(a).Some? && ReadHexes(b).Some? && ReadHexes(c).Some? && ReadHexes(d).Some? && ReadHexes(e).Some?
    ensures ReadHexes(Hyphenated(Hyphenated(Hyphenated(Hyphenated(a, b), c), d), e)) ==
      Some(ReadHexes(a).value + ReadHexes(b).value + ReadHexes(c).value + ReadHexes(d).value + ReadHexes(e).value)
  {
    hide ReadHexes, Hyphenated;
    ReadHyphenated(a, b);
    ReadHyphenated(Hyphenated(a, b), c);
    ReadHyphenated(Hyphenated(Hyphenated(a, b), c), d);
    ReadHyphenated(Hyphenated(Hyphenated(Hyphenated(a, b), c), d), e);
  }

  lemma HyphensAt(a: string, b: string, c: string, d: string, e: string)
    requires |a| == 8 && |b| == 4 && |c| == 4 && |d| == 4 && |e| == 12
    ensures var s := a + "-" + b + "-" + c + "-" + d + "-" + e;
      |s| == 36 && s[8] == s[13] == s[18] == s[23] == '-'
  {
  }

  /** The account printed in a link is all its digits in order, hyphenated 8-4-4-4-12. */
  lemma UuidReadsBack(u: Uuid)
    ensures ReadHexes(UuidText(u)) == Some(u)
    ensures |UuidText(u)| == 36
    ensures UuidText(u)[8] == UuidText(u)[13] == UuidText(u)[18] == UuidText(u)[23] == '-'
  {
    hide Hexes, ReadHexes;
    ReadPrintedHexes(u[..8]);
    ReadPrintedHexes(u[8..12]);
    ReadPrintedHexes(u[12..16]);
    ReadPrintedHexes(u[16..20]);
    ReadPrintedHexes(u[20..]);
    ReadFive(Hexes(u[..8]), Hexes(u[8..12]), Hexes(u[12..16]), Hexes(u[16..20]), Hexes(u[20..]));
    HyphensAt(Hexes(u[..8]), Hexes(u[8..12]), Hexes(u[12..16]), Hexes(u[16..20]), Hexes(u[20..]));
    FivePieces(u);
  }

  // ---------------------------------------------------------------- hosts that are lost

  /** The builder accepts such hosts: these links are printed, and their hosts are not read back. */
  lemma AcceptedHostIsLost(u: Uuid, p: RealityProfile, host: string)
    requires RealityFault(p) == None && host in {"h?x", "h@x", "a:b"}
    ensures var t := Target(Some(u), host, _ => false, 443, "");
      && BuildRealityUri(t, p).Success?
      && (var r := ReadLink(BuildRealityUri(t, p).value);
          r != Some(Link(UuidText(u), host, 443, Kept(RealityParams(p)), "")))
  {
    var t := Target(Some(u), host, _ => false, 443, "");
    OddHosts(host);
    hide ReadLink, BuildRealityUri, Strip, RealityParams, Kept, UuidText, RegName, HasSpace;
    RealityRoundTrip(t, p);
  }

  lemma OddHosts(host: string)
    requires host in {"h?x", "h@x", "a:b"}
    ensures Strip(host) == host && !HasSpace(host) && '/' !in host && !Bracketed(host) && Bare(host) == host
    ensures !RegName(host)
  {
    assert |host| == 3 && (host[0] == 'h' || host[0] == 'a') && (host[2] == 'x' || host[2] == 'b');
    var c := host[1];
    assert c == '?' || c == '@' || c == ':';
    assert !IsSpace(host[0]) && !IsSpace(c) && !IsSpace(host[2]) && !Unreserved(c) && !SubDelim(c) && c != '%';
    hide RegName, IsSpace, Unreserved, SubDelim;
    NoRegName(host, c);
  }
}
