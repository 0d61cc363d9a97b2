/** What every rendered configuration has in common, and the accounts it lists. */
module RenderingFacts {
  import opened Prelude
  import opened Json
  import opened Accounts
  import opened Rendering

  // ----- two renderings of the same settings -------------------------------

  /** Entry by entry, nothing but client lists may differ. */
  ghost predicate Alike(a: seq<Json>, b: seq<Json>) {
    && |a| == |b|
    && forall i | 0 <= i < |a| :: a[i].Obj? == b[i].Obj? && BlankInbound(a[i]) == BlankInbound(b[i])
  }

  lemma Elsewhere(a: Fields, b: Fields, key: string)
    requires a - {key} == b - {key}
    ensures forall k | k != key :: (k in a <==> k in b) && (k in a ==> a[k] == b[k])
  {
    forall k | k != key ensures (k in a <==> k in b) && (k in a ==> a[k] == b[k]) {
      assert k in a <==> k in a - {key};
      assert k in b <==> k in b - {key};
    }
  }

  lemma BlankKeepsTag(a: Json, b: Json, tag: string)
    requires a.Obj? && b.Obj? && BlankInbound(a) == BlankInbound(b)
    ensures HasTag(a.fields, tag) <==> HasTag(b.fields, tag)
  {
    assert HasTag(a.fields, tag) <==> HasTag(BlankInbound(a).fields, tag);
    assert HasTag(b.fields, tag) <==> HasTag(BlankInbound(b).fields, tag);
  }

  lemma {:induction false} FindAlike(a: seq<Json>, b: seq<Json>, tag: string)
    requires Alike(a, b)
    ensures FindInbound(a, tag) == FindInbound(b, tag)
  {
    if a != [] && a[0].Obj? {
      BlankKeepsTag(a[0], b[0], tag);
      FindAlike(a[1..], b[1..], tag);
    }
  }

  lemma {:induction false} DropAlike(a: seq<Json>, b: seq<Json>, tag: string)
    requires Alike(a, b)
    ensures match (DropTag(a, tag), DropTag(b, tag))
            case (Success(x), Success(y)) => Alike(x, y)
            case (Failure(d), Failure(e)) => d == e
            case _ => false
  {
    hide BlankInbound, HasTag;
    if a != [] && a[0].Obj? {
      BlankKeepsTag(a[0], b[0], tag);
      DropAlike(a[1..], b[1..], tag);
    }
  }

  lemma RealityAlike(f: Fields, s: Settings, keys: RealityKeys, u: Rows, v: Rows)
    ensures match (RealityInbound(f, s, u, keys), RealityInbound(f, s, v, keys))
            case (Success(x), Success(y)) => BlankInbound(Obj(x)) == BlankInbound(Obj(y))
            case (Failure(d), Failure(e)) => d == e
            case _ => false
  {
    hide RealityStream, Clients, Child;
    if RealityInbound(f, s, u, keys).Success? {
      RealityInboundIs(f, s, u, keys);
      RealityInboundIs(f, s, v, keys);
      hide RealityInbound;
      var x, y := RealityInbound(f, s, u, keys).value, RealityInbound(f, s, v, keys).value;
      assert x["settings"].fields["clients" := Arr([])] == y["settings"].fields["clients" := Arr([])];
    }
  }

  lemma WsAlike(a: Json, b: Json, s: Settings, u: Rows, v: Rows)
    requires a.Obj? && b.Obj? && BlankInbound(a) == BlankInbound(b)
    ensures match (WsInbound(a.fields, s, u), WsInbound(b.fields, s, v))
            case (Success(x), Success(y)) => BlankInbound(Obj(x)) == BlankInbound(Obj(y))
            case (Failure(d), Failure(e)) => d == e
            case _ => false
  {
    BlankSame(a, b);
    var ra, rb := WsInbound(a.fields, s, u), WsInbound(b.fields, s, v);
    if a != b {
      var sa, sb := a.fields["settings"].fields, b.fields["settings"].fields;
      Elsewhere(a.fields, b.fields, "settings");
      Elsewhere(sa, sb, "clients");
    }
    if ra.Success? {
      var x, y := ra.value["settings"].fields, rb.value["settings"].fields;
      hide Clients;
      assert x["clients" := Arr([])] == y["clients" := Arr([])];
      assert ra.value["settings" := Null] == rb.value["settings" := Null];
      OverrideSame(ra.value, rb.value, "settings", Null);
      OverrideSame(x, y, "clients", Arr([]));
      BlankSame(Obj(ra.value), Obj(rb.value));
    }
  }

  lemma InboundsAlike(items: seq<Json>, s: Settings, keys: RealityKeys, u: Rows, v: Rows)
    ensures match (RenderReality(items, s, u, keys), RenderReality(items, s, v, keys))
            case (Success(x), Success(y)) => Alike(x, y)
            case (Failure(d), Failure(e)) => d == e
            case _ => false
  {
    match FindInbound(items, REALITY)
    case Found(i) => RealityAlike(items[i].fields, s, keys, u, v);
    case _ =>
  }

  lemma WsInboundsAlike(a: seq<Json>, b: seq<Json>, s: Settings, u: Rows, v: Rows)
    requires Alike(a, b)
    ensures match (RenderWs(a, s, u), RenderWs(b, s, v))
            case (Success(x), Success(y)) => Alike(x, y)
            case (Failure(d), Failure(e)) => d == e
            case _ => false
  {
    FindAlike(a, b, WS_BACKEND);
    DropAlike(a, b, WS_BACKEND);
    match FindInbound(a, WS_BACKEND)
    case Found(j) => WsAlike(a[j], b[j], s, u, v);
    case _ =>
  }

  /** Rendering depends on the accounts only through the client lists. */
  lemma RenderStructure(s: Settings, keys: RealityKeys, template: Json, u: Rows, v: Rows)
    ensures match (Render(s, u, keys, template), Render(s, v, keys, template))
            case (Success(x), Success(y)) => Skeleton(x) == Skeleton(y) && Signature(x) == Signature(y)
            case (Failure(d), Failure(e)) => d == e
            case _ => false
  {
    var config := StripComments(template);
    if config.Obj? && RenderHeader(config.fields, s).Success? {
      var c := RenderHeader(config.fields, s).value;
      hide StripComments, RenderHeader;
      RenderInboundsStructure(c, s, keys, u, v);
      var a, b := RenderInbounds(c, s, u, keys), RenderInbounds(c, s, v, keys);
      if a.Success? {
        RoutingStructure(a.value, b.value, s);
      }
    }
  }

  ghost predicate AlikeConfigs(a: Fields, b: Fields) {
    && a - {"inbounds"} == b - {"inbounds"}
    && "inbounds" in a && "inbounds" in b && a["inbounds"].Arr? && b["inbounds"].Arr?
    && Alike(a["inbounds"].items, b["inbounds"].items)
  }

  lemma RenderInboundsStructure(c: Fields, s: Settings, keys: RealityKeys, u: Rows, v: Rows)
    ensures match (RenderInbounds(c, s, u, keys), RenderInbounds(c, s, v, keys))
            case (Success(x), Success(y)) => AlikeConfigs(x, y)
            case (Failure(d), Failure(e)) => d == e
            case _ => false
  {
    if "inbounds" in c && c["inbounds"].Arr? {
      var items := c["inbounds"].items;
      InboundsAlike(items, s, keys, u, v);
      var a, b := RenderReality(items, s, u, keys), RenderReality(items, s, v, keys);
      if a.Success? { WsInboundsAlike(a.value, b.value, s, u, v); }
      hide RenderReality, RenderWs;
    }
  }

  lemma RoutingStructure(a: Fields, b: Fields, s: Settings)
    requires AlikeConfigs(a, b)
    ensures match (RenderRouting(a, s), RenderRouting(b, s))
            case (Success(x), Success(y)) => Skeleton(Obj(x)) == Skeleton(Obj(y))
            case (Failure(d), Failure(e)) => d == e
            case _ => false
  {
    Elsewhere(a, b, "inbounds");
    assert BlankInbounds(a["inbounds"].items) == BlankInbounds(b["inbounds"].items);
    var ra, rb := RenderRouting(a, s), RenderRouting(b, s);
    if ra.Success? {
      assert rb.Success? && (forall k | k != "inbounds" ::
                               (k in ra.value <==> k in rb.value) && (k in ra.value ==> ra.value[k] == rb.value[k]));
      assert ra.value["inbounds"] == a["inbounds"] && rb.value["inbounds"] == b["inbounds"];
      assert Skeleton(Obj(ra.value)).fields == Skeleton(Obj(rb.value)).fields;
    }
  }

  // ----- no comment key survives -------------------------------------------

  predicate CleanFields(f: Fields) {
    forall k | k in f :: !Hidden(k) && Clean(f[k])
  }

  predicate CleanItems(items: seq<Json>) {
    forall i | 0 <= i < |items| :: Clean(items[i])
  }

  lemma ChildClean(f: Fields, key: string)
    requires CleanFields(f)
    ensures Child(f, key).Success? ==> CleanFields(Child(f, key).value)
  {
    if key in f { assert Clean(f[key]); }
  }

  lemma ClientsClean(users: Rows, vision: bool)
    ensures Clean(Clients(users, vision))
  {
    forall i | 0 <= i < |users| ensures Clean(Client(users[i], vision)) {
      var f := Client(users[i], vision).fields;
      assert forall k | k in f :: k in {"id", "email", "level", "flow"} && !f[k].Arr? && !f[k].Obj?;
    }
  }

  lemma StreamClean(stream: Fields, s: Settings, keys: RealityKeys)
    requires CleanFields(stream)
    ensures RealityStream(stream, s, keys).Success? ==> CleanFields(RealityStream(stream, s, keys).value)
  {
    hide Clean, CleanFields, Hidden, Child;
    LeavesClean(s, keys);
    if Child(stream, "realitySettings").Success? {
      ChildClean(stream, "realitySettings");
      var reality := Child(stream, "realitySettings").value;
      var r1 := Put(Put(reality, "target", Str(s.realityDestination)), "serverNames", Arr([Str(s.realityServerName)]));
      var r2 := Put(Put(r1, "privateKey", Str(keys.privateKey)), "shortIds", Arr([Str(keys.shortId)]));
      DefaultClean(r2, "show", Bool(false));
      var r3 := WithDefault(r2, "show", Bool(false));
      DefaultClean(r3, "xver", Num(0));
      hide WithDefault;
      var t := Put(Put(stream, "network", Str("raw")), "security", Str("reality"));
      var all := Put(t, "realitySettings", Obj(WithDefault(r3, "xver", Num(0))));
    }
  }

  lemma DefaultClean(f: Fields, key: string, v: Json)
    requires CleanFields(f) && !Hidden(key) && Clean(v)
    ensures CleanFields(WithDefault(f, key, v)) && Clean(Obj(WithDefault(f, key, v)))
  {
    hide Hidden;
    if key !in f {
      var g := Put(f, key, v);
    }
  }

  /** A clean section stays clean when a clean value is put under a visible key. */
  function Put(f: Fields, key: string, v: Json): (g: Fields)
    requires CleanFields(f) && !Hidden(key) && Clean(v)
    ensures g == f[key := v] && CleanFields(g) && Clean(Obj(g))
  {
    f[key := v]
  }

  lemma LeavesClean(s: Settings, keys: RealityKeys)
    ensures Clean(Arr([Str(s.realityServerName)])) && Clean(Arr([Str(keys.shortId)]))
    ensures forall t: string :: Clean(Str(t))
    ensures Clean(Bool(false)) && Clean(Num(0))
    ensures !Hidden("target") && !Hidden("serverNames") && !Hidden("privateKey") && !Hidden("shortIds")
    ensures !Hidden("show") && !Hidden("xver")
    ensures !Hidden("network") && !Hidden("security") && !Hidden("realitySettings")
  {
  }

  lemma RealityInboundIs(f: Fields, s: Settings, users: Rows, keys: RealityKeys)
    requires RealityInbound(f, s, users, keys).Success?
    ensures Child(f, "settings").Success? && Child(f, "streamSettings").Success?
    ensures RealityStream(Child(f, "streamSettings").value, s, keys).Success?
    ensures var settings := Child(f, "settings").value["decryption" := Str("none")]["clients" := Clients(users, true)];
            var stream := RealityStream(Child(f, "streamSettings").value, s, keys).value;
            RealityInbound(f, s, users, keys).value ==
            f["port" := Num(s.xrayPort)]["listen" := Str("0.0.0.0")]
             ["settings" := Obj(settings)]["streamSettings" := Obj(stream)]
  {
    hide Child, RealityStream, Clients;
  }

  lemma RealityClean(f: Fields, s: Settings, users: Rows, keys: RealityKeys)
    requires CleanFields(f)
    ensures RealityInbound(f, s, users, keys).Success? ==> CleanFields(RealityInbound(f, s, users, keys).value)
  {
    hide Clean, CleanFields, Hidden, Clients, Child, RealityStream, RealityInbound;
    if RealityInbound(f, s, users, keys).Success? {
      RealityInboundIs(f, s, users, keys);
      var settings, stream := Child(f, "settings").value, Child(f, "streamSettings").value;
      ChildClean(f, "settings");
      ChildClean(f, "streamSettings");
      StreamClean(stream, s, keys);
      ObjClean(RealityStream(stream, s, keys).value);
      SettingsClean(settings, users);
      var settings' := Obj(settings["decryption" := Str("none")]["clients" := Clients(users, true)]);
      AssembledClean(f, s, settings', Obj(RealityStream(stream, s, keys).value));
    }
  }

  lemma SettingsClean(settings: Fields, users: Rows)
    requires CleanFields(settings)
    ensures Clean(Obj(settings["decryption" := Str("none")]["clients" := Clients(users, true)]))
  {
    hide CleanFields, Clients;
    ClientsClean(users, true);
    var all := Put(Put(settings, "decryption", Str("none")), "clients", Clients(users, true));
  }

  lemma AssembledClean(f: Fields, s: Settings, settings: Json, stream: Json)
    requires CleanFields(f) && Clean(settings) && Clean(stream)
    ensures CleanFields(f["port" := Num(s.xrayPort)]["listen" := Str("0.0.0.0")]
                         ["settings" := settings]["streamSettings" := stream])
  {
    hide CleanFields;
    var f1 := Put(Put(f, "port", Num(s.xrayPort)), "listen", Str("0.0.0.0"));
    var f2 := Put(Put(f1, "settings", settings), "streamSettings", stream);
  }

  lemma ObjClean(f: Fields)
    requires CleanFields(f)
    ensures Clean(Obj(f))
  {
  }

  lemma WsClean(f: Fields, s: Settings, users: Rows)
    requires CleanFields(f)
    ensures WsInbound(f, s, users).Success? ==> CleanFields(WsInbound(f, s, users).value)
  {
    ClientsClean(users, false);
    hide Clients;
    var r := WsInbound(f, s, users);
    if r.Success? { assert Clean(r.value["settings"]); }
  }

  lemma {:induction false} DropClean(items: seq<Json>, tag: string)
    requires CleanItems(items)
    ensures DropTag(items, tag).Success? ==> CleanItems(DropTag(items, tag).value)
  {
    if items != [] { DropClean(items[1..], tag); }
  }

  lemma {:induction false} KeepRulesClean(rules: seq<Json>)
    requires CleanItems(rules)
    ensures KeepRules(rules).Success? ==> CleanItems(KeepRules(rules).value)
  {
    if rules != [] { KeepRulesClean(rules[1..]); }
  }

  lemma RenderRealityClean(items: seq<Json>, s: Settings, users: Rows, keys: RealityKeys)
    requires CleanItems(items)
    ensures RenderReality(items, s, users, keys).Success? ==> CleanItems(RenderReality(items, s, users, keys).value)
  {
    match FindInbound(items, REALITY)
    case Found(i) =>
      assert Clean(items[i]);
      RealityClean(items[i].fields, s, users, keys);
      hide RealityInbound;
    case _ =>
  }

  lemma RenderWsClean(items: seq<Json>, s: Settings, users: Rows)
    requires CleanItems(items)
    ensures RenderWs(items, s, users).Success? ==> CleanItems(RenderWs(items, s, users).value)
  {
    match FindInbound(items, WS_BACKEND)
    case Found(j) =>
      assert Clean(items[j]);
      WsClean(items[j].fields, s, users);
      DropClean(items, WS_BACKEND);
      hide WsInbound;
    case _ =>
  }

  lemma InboundsClean(c: Fields, s: Settings, users: Rows, keys: RealityKeys)
    requires CleanFields(c)
    ensures RenderInbounds(c, s, users, keys).Success? ==> CleanFields(RenderInbounds(c, s, users, keys).value)
  {
    if RenderInbounds(c, s, users, keys).Success? {
      assert Clean(c["inbounds"]);
      var items := c["inbounds"].items;
      RenderRealityClean(items, s, users, keys);
      RenderWsClean(RenderReality(items, s, users, keys).value, s, users);
      hide RenderReality, RenderWs;
      assert Clean(RenderInbounds(c, s, users, keys).value["inbounds"]);
    }
  }

  lemma HeaderClean(c: Fields, s: Settings)
    requires CleanFields(c)
    ensures RenderHeader(c, s).Success? ==> CleanFields(RenderHeader(c, s).value)
  {
    var r := RenderHeader(c, s);
    if r.Success? { assert Clean(r.value["log"]) && Clean(r.value["api"]); }
  }

  lemma RoutingClean(c: Fields, s: Settings)
    requires CleanFields(c)
    ensures RenderRouting(c, s).Success? ==> CleanFields(RenderRouting(c, s).value)
  {
    var r := RenderRouting(c, s);
    if r.Success? && !s.blockBittorrent {
      var routing := c["routing"].fields;
      assert Clean(c["routing"]);
      if "rules" in routing && routing["rules"].Arr? {
        assert Clean(routing["rules"]);
        KeepRulesClean(routing["rules"].items);
      }
      assert Clean(r.value["routing"].fields["rules"]);
    }
  }

  /** No key beginning with "_" survives at any depth of a rendered configuration. */
  lemma RenderIsClean(s: Settings, users: Rows, keys: RealityKeys, template: Json)
    ensures Render(s, users, keys, template).Success? ==> Clean(Render(s, users, keys, template).value)
  {
    StripIsClean(template);
    var r := Render(s, users, keys, template);
    if r.Success? {
      var c0 := StripComments(template).fields;
      assert CleanFields(c0);
      hide StripComments;
      HeaderClean(c0, s);
      var c1 := RenderHeader(c0, s).value;
      InboundsClean(c1, s, users, keys);
      RoutingClean(RenderInbounds(c1, s, users, keys).value, s);
    }
  }
}
