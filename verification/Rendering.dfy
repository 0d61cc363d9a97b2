/**
 Rendering the Xray configuration from the template, the settings and the
 active accounts (app/xray_manager.py, `render_config`), the skeleton its
 structural signature is taken of, and the accounts a configuration lists.
 */
module Rendering {
  import opened Prelude
  import opened Json
  import opened CanonicalText
  import opened Accounts

  const REALITY := "vless-reality"
  const WS_BACKEND := "vless-ws-backend"

  datatype Settings = Settings(
    logLevel: string, apiAddress: string, xrayPort: int, realityDestination: string,
    realityServerName: string, enableWsFallback: bool, wsBackendPort: int, blockBittorrent: bool)

  datatype RealityKeys = RealityKeys(privateKey: string, publicKey: string, shortId: string)

  /** `XrayError` for a missing inbound; a Python type or key error otherwise. */
  datatype RenderError = MissingInbound(tag: string) | BadShape

  type Fields = map<string, Json>

  datatype Lookup = Found(i: nat) | Absent | Malformed

  predicate HasTag(f: Fields, tag: string) {
    "tag" in f && f["tag"] == Str(tag)
  }

  function FindInbound(items: seq<Json>, tag: string): (r: Lookup)
    ensures r.Found? ==> r.i < |items| && items[r.i].Obj? && HasTag(items[r.i].fields, tag)
  {
    if items == [] then Absent
    else if !items[0].Obj? then Malformed
    else if HasTag(items[0].fields, tag) then Found(0)
    else
      match FindInbound(items[1..], tag)
      case Found(i) => Found(i + 1)
      case r => r
  }

  /** What Python iterates over like an empty list, though it is no list. */
  predicate IteratesEmpty(j: Json) {
    j == Obj(map[]) || j == Str("")
  }

  // ----- render_config -----------------------------------------------------

  /** `o.setdefault(key, {})`, when the result is then used as a dict. */
  function Child(o: Fields, key: string): Result<Fields, RenderError> {
    if key !in o then Success(map[])
    else if o[key].Obj? then Success(o[key].fields)
    else Failure(BadShape)
  }

  function WithDefault(o: Fields, key: string, v: Json): Fields {
    if key in o then o else o[key := v]
  }

  function FlowOf(u: User): string {
    if u.flow == "" then VISION else u.flow
  }

  function Client(u: User, vision: bool): Json {
    var base := map["id" := Str(u.uuid), "email" := Str(u.Email()), "level" := Num(0)];
    Obj(if vision then base["flow" := Str(FlowOf(u))] else base)
  }

  function Clients(users: Rows, vision: bool): Json {
    Arr(seq(|users|, i requires 0 <= i < |users| => Client(users[i], vision)))
  }

  function RealityStream(stream: Fields, s: Settings, keys: RealityKeys): Result<Fields, RenderError> {
    match Child(stream, "realitySettings")
    case Failure(e) => Failure(e)
    case Success(reality) =>
      var r1 := reality["target" := Str(s.realityDestination)]["serverNames" := Arr([Str(s.realityServerName)])]
                       ["privateKey" := Str(keys.privateKey)]["shortIds" := Arr([Str(keys.shortId)])];
      var r2 := WithDefault(WithDefault(r1, "show", Bool(false)), "xver", Num(0));
      Success(stream["network" := Str("raw")]["security" := Str("reality")]["realitySettings" := Obj(r2)])
  }

  function RealityInbound(f: Fields, s: Settings, users: Rows, keys: RealityKeys): Result<Fields, RenderError> {
    match Child(f, "settings")
    case Failure(e) => Failure(e)
    case Success(settings) =>
      match Child(f, "streamSettings")
      case Failure(e) => Failure(e)
      case Success(stream) =>
        match RealityStream(stream, s, keys)
        case Failure(e) => Failure(e)
        case Success(stream') =>
          Success(f["port" := Num(s.xrayPort)]["listen" := Str("0.0.0.0")]
                   ["settings" := Obj(settings["decryption" := Str("none")]["clients" := Clients(users, true)])]
                   ["streamSettings" := Obj(stream')])
  }

  function WsInbound(f: Fields, s: Settings, users: Rows): Result<Fields, RenderError> {
    match Child(f, "settings")
    case Failure(e) => Failure(e)
    case Success(settings) =>
      Success(f["port" := Num(s.wsBackendPort)]["listen" := Str("127.0.0.1")]
               ["settings" := Obj(settings["decryption" := Str("none")]["clients" := Clients(users, false)])])
  }

  /** The inbounds without those tagged `tag`; a non-dict entry raises. */
  function DropTag(items: seq<Json>, tag: string): Result<seq<Json>, RenderError> {
    if items == [] then Success([])
    else if !items[0].Obj? then Failure(BadShape)
    else
      match DropTag(items[1..], tag)
      case Failure(e) => Failure(e)
      case Success(rest) => Success((if HasTag(items[0].fields, tag) then [] else [items[0]]) + rest)
  }

  function RenderReality(
      items: seq<Json>, s: Settings, users: Rows, keys: RealityKeys): Result<seq<Json>, RenderError>
  {
    match FindInbound(items, REALITY)
    case Malformed => Failure(BadShape)
    case Absent => Failure(MissingInbound(REALITY))
    case Found(i) =>
      match RealityInbound(items[i].fields, s, users, keys)
      case Failure(e) => Failure(e)
      case Success(f) => Success(items[i := Obj(f)])
  }

  function RenderWs(items: seq<Json>, s: Settings, users: Rows): Result<seq<Json>, RenderError> {
    match FindInbound(items, WS_BACKEND)
    case Malformed => Failure(BadShape)
    case Absent => if s.enableWsFallback then Failure(MissingInbound(WS_BACKEND)) else Success(items)
    case Found(j) =>
      if !s.enableWsFallback then DropTag(items, WS_BACKEND)
      else
        match WsInbound(items[j].fields, s, users)
        case Failure(e) => Failure(e)
        case Success(f) => Success(items[j := Obj(f)])
  }

  predicate Contains(s: string, sub: string) {
    |s| >= |sub| && (s[..|sub|] == sub || (s != "" && Contains(s[1..], sub)))
  }

  /** `"bittorrent" in (rule.get("protocol") or [])`. */
  function MentionsBittorrent(rule: Json): Result<bool, RenderError> {
    if !rule.Obj? then Failure(BadShape)
    else if "protocol" !in rule.fields then Success(false)
    else
      match rule.fields["protocol"]
      case Null => Success(false)
      case Bool(b) => if b then Failure(BadShape) else Success(false)
      case Num(n) => if n != 0 then Failure(BadShape) else Success(false)
      case Str(p) => Success(Contains(p, "bittorrent"))
      case Arr(ps) => Success(Str("bittorrent") in ps)
      case Obj(f) => Success("bittorrent" in f)
  }

  function KeepRules(rules: seq<Json>): Result<seq<Json>, RenderError> {
    if rules == [] then Success([])
    else
      match MentionsBittorrent(rules[0])
      case Failure(e) => Failure(e)
      case Success(mentions) =>
        match KeepRules(rules[1..])
        case Failure(e) => Failure(e)
        case Success(rest) => Success((if mentions then [] else [rules[0]]) + rest)
  }

  function RenderRouting(config: Fields, s: Settings): Result<Fields, RenderError> {
    if s.blockBittorrent then Success(config)
    else if "routing" !in config || !config["routing"].Obj? then Failure(BadShape)
    else
      var routing := config["routing"].fields;
      if "rules" !in routing || IteratesEmpty(routing["rules"]) then
        Success(config["routing" := Obj(routing["rules" := Arr([])])])
      else if !routing["rules"].Arr? then Failure(BadShape)
      else
        match KeepRules(routing["rules"].items)
        case Failure(e) => Failure(e)
        case Success(rules) => Success(config["routing" := Obj(routing["rules" := Arr(rules)])])
  }

  function RenderHeader(config: Fields, s: Settings): Result<Fields, RenderError> {
    match Child(config, "log")
    case Failure(e) => Failure(e)
    case Success(log) =>
      match Child(config, "api")
      case Failure(e) => Failure(e)
      case Success(api) =>
        Success(config["log" := Obj(log["loglevel" := Str(s.logLevel)])]
                      ["api" := Obj(api["listen" := Str(s.apiAddress)])])
  }

  function RenderInbounds(config: Fields, s: Settings, users: Rows, keys: RealityKeys): Result<Fields, RenderError> {
    if "inbounds" !in config || IteratesEmpty(config["inbounds"]) then Failure(MissingInbound(REALITY))
    else if !config["inbounds"].Arr? then Failure(BadShape)
    else
      match RenderReality(config["inbounds"].items, s, users, keys)
      case Failure(e) => Failure(e)
      case Success(items) =>
        match RenderWs(items, s, users)
        case Failure(e) => Failure(e)
        case Success(items') => Success(config["inbounds" := Arr(items')])
  }

  function Render(s: Settings, users: Rows, keys: RealityKeys, template: Json): Result<Json, RenderError> {
    var config := StripComments(template);
    if !config.Obj? then Failure(BadShape)
    else
      match RenderHeader(config.fields, s)
      case Failure(e) => Failure(e)
      case Success(c1) =>
        match RenderInbounds(c1, s, users, keys)
        case Failure(e) => Failure(e)
        case Success(c2) =>
          match RenderRouting(c2, s)
          case Failure(e) => Failure(e)
          case Success(c3) => Success(Obj(c3))
  }

  // ----- the structural signature ------------------------------------------

  function BlankInbound(ib: Json): Json {
    if ib.Obj? && "settings" in ib.fields && ib.fields["settings"].Obj?
    then Obj(ib.fields["settings" := Obj(ib.fields["settings"].fields["clients" := Arr([])])])
    else ib
  }

  function BlankInbounds(items: seq<Json>): seq<Json> {
    seq(|items|, i requires 0 <= i < |items| => BlankInbound(items[i]))
  }

  /** The configuration with every client list emptied. */
  function Skeleton(config: Json): Json {
    if config.Obj? && "inbounds" in config.fields && config.fields["inbounds"].Arr?
    then Obj(config.fields["inbounds" := Arr(BlankInbounds(config.fields["inbounds"].items))])
    else config
  }

  /** Taking the signature of anything else raises. */
  predicate Signable(config: Json) {
    && config.Obj?
    && ("inbounds" in config.fields && !IteratesEmpty(config.fields["inbounds"]) ==>
          && config.fields["inbounds"].Arr?
          && forall i | 0 <= i < |config.fields["inbounds"].items| :: config.fields["inbounds"].items[i].Obj?)
  }

  /** The hashed text; SHA-256 is taken to be injective. */
  ghost function Signature(config: Json): string {
    Dump(Skeleton(config))
  }

  ghost predicate SameInbound(a: Json, b: Json) {
    || a == b
    || (&& a.Obj? && b.Obj? && a.fields - {"settings"} == b.fields - {"settings"}
        && "settings" in a.fields && "settings" in b.fields
        && a.fields["settings"].Obj? && b.fields["settings"].Obj?
        && a.fields["settings"].fields - {"clients"} == b.fields["settings"].fields - {"clients"})
  }

  predicate ListsInbounds(config: Json) {
    config.Obj? && "inbounds" in config.fields && config.fields["inbounds"].Arr?
  }

  /** The two trees differ at most in the client lists of their inbounds. */
  ghost predicate SameStructure(a: Json, b: Json) {
    if ListsInbounds(a) && ListsInbounds(b) then
      && a.fields - {"inbounds"} == b.fields - {"inbounds"}
      && |a.fields["inbounds"].items| == |b.fields["inbounds"].items|
      && forall i | 0 <= i < |a.fields["inbounds"].items| ::
           SameInbound(a.fields["inbounds"].items[i], b.fields["inbounds"].items[i])
    else a == b
  }

  lemma OverrideSame(f: Fields, g: Fields, key: string, v: Json)
    ensures f[key := v] == g[key := v] <==> f - {key} == g - {key}
  {
    if f[key := v] == g[key := v] {
      assert f - {key} == f[key := v] - {key} == g[key := v] - {key} == g - {key};
    }
    if f - {key} == g - {key} {
      assert f[key := v] == (f - {key})[key := v] == (g - {key})[key := v] == g[key := v];
    }
  }

  lemma BlankSame(a: Json, b: Json)
    requires a.Obj? && b.Obj?
    ensures BlankInbound(a) == BlankInbound(b) <==> SameInbound(a, b)
  {
    var blank := (f: Fields) => f["clients" := Arr([])];
    if && "settings" in a.fields && a.fields["settings"].Obj? && "settings" in b.fields && b.fields["settings"].Obj? {
      var sa, sb := a.fields["settings"].fields, b.fields["settings"].fields;
      OverrideSame(sa, sb, "clients", Arr([]));
      OverrideSame(a.fields, b.fields, "settings", Obj(blank(sa)));
      assert BlankInbound(a).fields["settings"] == Obj(blank(sa));
      assert BlankInbound(b).fields["settings"] == Obj(blank(sb));
    } else if "settings" in a.fields && a.fields["settings"].Obj? {
      assert BlankInbound(a).fields["settings"].Obj?;
    } else if "settings" in b.fields && b.fields["settings"].Obj? {
      assert BlankInbound(b).fields["settings"].Obj?;
    }
  }

  /** Equal signatures: exactly the pairs that differ in client lists alone. */
  lemma SignatureMeansSameStructure(a: Json, b: Json)
    requires Signable(a) && Signable(b)
    ensures Signature(a) == Signature(b) <==> SameStructure(a, b)
  {
    DumpInjective(Skeleton(a), Skeleton(b));
    SkeletonMeansSameStructure(a, b);
  }

  lemma SkeletonMeansSameStructure(a: Json, b: Json)
    requires Signable(a) && Signable(b)
    ensures Skeleton(a) == Skeleton(b) <==> SameStructure(a, b)
  {
    if ListsInbounds(a) && ListsInbounds(b) {
      var ia, ib := a.fields["inbounds"].items, b.fields["inbounds"].items;
      OverrideSame(a.fields, b.fields, "inbounds", Arr(BlankInbounds(ia)));
      BlanksSame(ia, ib);
      assert Skeleton(a).fields["inbounds"] == Arr(BlankInbounds(ia));
      assert Skeleton(b).fields["inbounds"] == Arr(BlankInbounds(ib));
    } else if ListsInbounds(a) {
      assert ListsInbounds(Skeleton(a));
    } else if ListsInbounds(b) {
      assert ListsInbounds(Skeleton(b));
    }
  }

  lemma BlanksSame(a: seq<Json>, b: seq<Json>)
    requires forall i | 0 <= i < |a| :: a[i].Obj?
    requires forall i | 0 <= i < |b| :: b[i].Obj?
    ensures BlankInbounds(a) == BlankInbounds(b) <==>
            |a| == |b| && forall i | 0 <= i < |a| :: SameInbound(a[i], b[i])
  {
    if |a| == |b| {
      forall i | 0 <= i < |a| ensures BlankInbound(a[i]) == BlankInbound(b[i]) <==> SameInbound(a[i], b[i]) {
        BlankSame(a[i], b[i]);
      }
      if BlankInbounds(a) == BlankInbounds(b) {
        forall i | 0 <= i < |a| ensures SameInbound(a[i], b[i]) {
          assert BlankInbounds(a)[i] == BlankInbounds(b)[i];
        }
      }
    }
  }
}
