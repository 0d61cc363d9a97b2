/** The vless:// links handed to clients, and a reader for them. */
module ShareLink {
  import opened Prelude
  import opened Text
  import opened PercentEncoding

  // ---------------------------------------------------------------- what goes into a link

  /** Thirty-two hexadecimal digits. */
  type Uuid = u: seq<nat> | |u| == 32 && forall i | 0 <= i < 32 :: u[i] < 16
    witness seq(32, _ => 0)

  type Params = seq<(string, string)>

  datatype LinkError =
    | BadUuid | HostMissing | HostEmpty | HostHasSpace | HostIsUrl | BadPort
    | KeyMissing | SniMissing | BadFlow | BadNetwork
    | PathMissing | PathHasSpace

  datatype RealityProfile = RealityProfile(
    publicKey: string, shortId: string, serverName: string,
    fingerprint: string, flow: string, spiderX: string, networkAlias: string)

  datatype WebSocketProfile = WebSocketProfile(path: string, host: string, fingerprint: string, tls: bool)

  /**
   * Where a link points. `account` is what `uuid.UUID` makes of the given text, None
   * when it raises; `isV6` says which texts `ipaddress` takes for IPv6 addresses.
   */
  datatype Target = Target(account: Option<Uuid>, host: string, isV6: string -> bool, port: int, remark: string)

  // ---------------------------------------------------------------- printing

  function Hexes(u: seq<nat>): (s: string)
    requires forall i | 0 <= i < |u| :: u[i] < 16
    ensures forall c | c in s :: Unreserved(c)
  {
    if u == [] then "" else [HexChar(u[0])] + Hexes(u[1..])
  }

  function UuidText(u: Uuid): (s: string)
    ensures forall c | c in s :: Unreserved(c)
  {
    Hexes(u[..8]) + "-" + Hexes(u[8..12]) + "-" + Hexes(u[12..16]) + "-" + Hexes(u[16..20]) + "-" + Hexes(u[20..])
  }

  /** `str.isspace` */
  predicate IsSpace(c: char) {
    var n := c as int;
    || 9 <= n <= 13 || 28 <= n <= 32 || n == 0x85 || n == 0xA0 || n == 0x1680
    || 0x2000 <= n <= 0x200A || n == 0x2028 || n == 0x2029 || n == 0x202F || n == 0x205F || n == 0x3000
  }

  predicate HasSpace(s: string) {
    exists i | 0 <= i < |s| :: IsSpace(s[i])
  }

  function StripLeft(s: string): string {
    if s != "" && IsSpace(s[0]) then StripLeft(s[1..]) else s
  }

  function Strip(s: string): string
    decreases |s|
  {
    if s != "" && IsSpace(s[|s| - 1]) then Strip(s[..|s| - 1]) else StripLeft(s)
  }

  predicate Bracketed(s: string) {
    s != "" && s[0] == '[' && s[|s| - 1] == ']'
  }

  function FormatHost(value: string, isV6: string -> bool): Result<string, LinkError> {
    var host := Strip(value);
    if value == "" then Failure(HostMissing)
    else if host == "" then Failure(HostEmpty)
    else if HasSpace(host) then Failure(HostHasSpace)
    else if '/' in host then Failure(HostIsUrl)
    else if Bracketed(host) then Success(host)
    else Success(if isV6(host) then "[" + host + "]" else host)
  }

  function NormalisePath(path: string): Result<string, LinkError> {
    var cleaned := Strip(path);
    var rooted := if cleaned == "" || cleaned[0] != '/' then "/" + cleaned else cleaned;
    if path == "" then Failure(PathMissing)
    else if HasSpace(rooted) then Failure(PathHasSpace)
    else Success(rooted)
  }

  /** Parameters with an empty value are not printed. */
  function Kept(params: Params): Params {
    if params == [] then []
    else if params[0].1 == "" then Kept(params[1..])
    else [params[0]] + Kept(params[1..])
  }

  function Pair(p: (string, string)): string {
    Quote(p.0) + "=" + Quote(p.1)
  }

  function Joined(params: Params): string {
    if params == [] then ""
    else if |params| == 1 then Pair(params[0])
    else Pair(params[0]) + "&" + Joined(params[1..])
  }

  function BuildQuery(params: Params): string {
    Joined(Kept(params))
  }

  function Authority(account: string, server: string, port: nat): string {
    account + "@" + server + ":" + Digits(port)
  }

  function Uri(account: string, server: string, port: nat, params: Params, remark: string): string {
    "vless://" + Authority(account, server, port) + "?" + BuildQuery(params)
      + (if remark == "" then "" else "#" + Quote(remark))
  }

  /** The account, host and port checks both builders make first, in this order. */
  function Checked(t: Target): Result<(string, string, nat), LinkError> {
    match (t.account, FormatHost(t.host, t.isV6))
    case (None, _) => Failure(BadUuid)
    case (_, Failure(e)) => Failure(e)
    case (Some(u), Success(server)) =>
      if 1 <= t.port <= 65535 then Success((UuidText(u), server, t.port)) else Failure(BadPort)
  }

  function RealityParams(p: RealityProfile): Params {
    [ ("type", p.networkAlias), ("security", "reality"), ("encryption", "none"), ("headerType", "none"),
      ("flow", p.flow), ("fp", p.fingerprint), ("pbk", p.publicKey), ("sid", p.shortId),
      ("sni", p.serverName), ("spx", p.spiderX) ]
  }

  function RealityFault(p: RealityProfile): Option<LinkError> {
    if p.publicKey == "" then Some(KeyMissing)
    else if p.serverName == "" then Some(SniMissing)
    else if p.flow !in {"", "xtls-rprx-vision"} then Some(BadFlow)
    else if p.networkAlias !in {"tcp", "raw"} then Some(BadNetwork)
    else None
  }

  function BuildRealityUri(t: Target, p: RealityProfile): Result<string, LinkError> {
    match (Checked(t), RealityFault(p))
    case (Failure(e), _) => Failure(e)
    case (_, Some(e)) => Failure(e)
    case (Success((account, server, port)), None) =>
      Success(Uri(account, server, port, RealityParams(p), t.remark))
  }

  function WebSocketParams(p: WebSocketProfile, path: string): Params {
    [ ("type", "ws"), ("security", if p.tls then "tls" else "none"), ("encryption", "none"),
      ("path", path), ("host", p.host) ]
      + if p.tls then [("sni", p.host), ("fp", p.fingerprint)] else []
  }

  function BuildWebSocketUri(t: Target, p: WebSocketProfile): Result<string, LinkError> {
    match Checked(t)
    case Failure(e) => Failure(e)
    case Success((account, server, port)) =>
      if p.host == "" then Failure(HostMissing)
      else match NormalisePath(p.path)
        case Failure(e) => Failure(e)
        case Success(path) => Success(Uri(account, server, port, WebSocketParams(p, path), t.remark))
  }

  // ---------------------------------------------------------------- reading

  datatype Link = Link(account: string, host: string, port: nat, params: Params, remark: string)

  function OrEmpty(s: Option<string>): string {
    match s case Some(t) => t case None => ""
  }

  function ReadPair(s: string): (string, string) {
    var p := Cut(s, '=');
    (Unquote(p.before), Unquote(OrEmpty(p.after)))
  }

  function ReadPairs(s: string): Params
    decreases |s|
  {
    CutBefore(s, '&');
    match Cut(s, '&')
    case Parts(a, None) => [ReadPair(a)]
    case Parts(a, Some(b)) => [ReadPair(a)] + ReadPairs(b)
  }

  function ReadQuery(s: string): Params {
    if s == "" then [] else ReadPairs(s)
  }

  function ReadPort(s: string): Option<nat> {
    if s != "" && AllDigits(s) then Some(Value(s)) else None
  }

  /** The sub-delims of section 2.2 of RFC 3986. */
  predicate SubDelim(c: char) {
    c in "!$&'()*+,;="
  }

  /** A reg-name of section 3.2.2: unreserved characters, sub-delims and whole escapes. */
  predicate RegName(s: string)
    decreases |s|
  {
    || s == ""
    || (Escaped(s).Some? && RegName(s[3..]))
    || ((Unreserved(s[0]) || SubDelim(s[0])) && RegName(s[1..]))
  }

  /** What the brackets of an IP literal may enclose, by its characters. */
  predicate Literal(s: string) {
    s != "" && forall c | c in s :: Unreserved(c) || SubDelim(c) || c == ':'
  }

  /**
   * Host and port (section 3.2.2 of RFC 3986): a literal ends at its bracket, a name at
   * the last colon, and a host that is neither is refused.
   */
  function ReadServer(s: string): Option<(string, nat)> {
    if s != "" && s[0] == '[' then
      match Cut(s[1..], ']')
      case Parts(_, None) => None
      case Parts(host, Some(rest)) =>
        if rest == "" || rest[0] != ':' || !Literal(host) then None
        else match ReadPort(rest[1..])
          case None => None
          case Some(port) => Some((host, port))
    else
      match CutLast(s, ':')
      case Parts(_, None) => None
      case Parts(host, Some(rest)) =>
        if !RegName(host) then None
        else match ReadPort(rest)
          case None => None
          case Some(port) => Some((host, port))
  }

  function ReadLink(s: string): Option<Link> {
    if !("vless://" <= s) then None
    else
      var whole := Cut(s[8..], '#');
      var asked := Cut(whole.before, '?');
      match Cut(asked.before, '@')
      case Parts(_, None) => None
      case Parts(account, Some(server)) =>
        match ReadServer(server)
        case None => None
        case Some((host, port)) =>
          Some(Link(account, host, port, ReadQuery(OrEmpty(asked.after)), Unquote(OrEmpty(whole.after))))
  }

  // ---------------------------------------------------------------- which hosts can be read back

  /** The host without the brackets of an IP literal. */
  function Bare(server: string): string {
    if Bracketed(server) then server[1..|server| - 1] else server
  }

  /** Server text that a reader accepts and can take apart again. */
  predicate Readable(server: string) {
    if server != "" && server[0] == '[' then Bracketed(server) && Literal(Bare(server)) else RegName(server)
  }

  /** The hosts a link can carry: reg-names, and IP literals with or without their brackets. */
  predicate CanCarry(host: string, v6: bool) {
    if Bracketed(host) || v6 then Literal(Bare(host)) else RegName(host)
  }
}
