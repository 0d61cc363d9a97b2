/** What rendering takes over from the template unchanged, and what it decides itself. */
module RenderingFrame {
  import opened Prelude
  import opened Json
  import opened Accounts
  import opened Rendering
  import opened LiveXray

  lemma {:induction false} UpdateKeepsOthers(items: seq<Json>, i: nat, f: Fields, tag: string)
    requires i < |items| && items[i].Obj? && !HasTag(items[i].fields, tag) && !HasTag(f, tag)
    ensures FieldsTagged(items[i := Obj(f)], tag) == FieldsTagged(items, tag)
  {
    var after := items[i := Obj(f)];
    if i > 0 {
      assert after[1..] == items[1..][i - 1 := Obj(f)];
      UpdateKeepsOthers(items[1..], i - 1, f, tag);
      if items[0].Obj? && !HasTag(items[0].fields, tag) {
        FindTail(items, tag);
        FindTail(after, tag);
      }
    } else {
      assert after[1..] == items[1..];
      FindTail(items, tag);
      FindTail(after, tag);
    }
  }

  lemma RealityKeepsOthers(items: seq<Json>, s: Settings, users: Rows, keys: RealityKeys, tag: string)
    requires RenderReality(items, s, users, keys).Success? && tag !in MANAGED
    ensures FieldsTagged(RenderReality(items, s, users, keys).value, tag) == FieldsTagged(items, tag)
  {
    var i := FindInbound(items, REALITY).i;
    RealityIsRendered(items[i].fields, s, users, keys);
    var f := RealityInbound(items[i].fields, s, users, keys).value;
    hide RealityInbound, RenderedStream, Clients;
    UpdateKeepsOthers(items, i, f, tag);
  }

  lemma WsKeepsOthers(items: seq<Json>, s: Settings, users: Rows, tag: string)
    requires RenderWs(items, s, users).Success? && tag !in MANAGED
    ensures FieldsTagged(RenderWs(items, s, users).value, tag) == FieldsTagged(items, tag)
  {
    match FindInbound(items, WS_BACKEND)
    case Found(j) =>
      if s.enableWsFallback {
        var f := WsInbound(items[j].fields, s, users).value;
        assert HasTag(f, WS_BACKEND);
        hide WsInbound;
        UpdateKeepsOthers(items, j, f, tag);
      } else {
        FindAfterDrop(items, WS_BACKEND, tag);
      }
    case _ =>
  }

  /** `s` has `sub` at position `i`. */
  ghost predicate HasAt(s: string, sub: string, i: nat) {
    i + |sub| <= |s| && s[i..i + |sub|] == sub
  }

  lemma {:induction false} ContainsIff(s: string, sub: string)
    requires sub != ""
    ensures Contains(s, sub) <==> exists i: nat :: HasAt(s, sub, i)
  {
    if |s| >= |sub| {
      assert HasAt(s, sub, 0) <==> s[..|sub|] == sub;
      var rest := s[1..];
      ContainsIff(rest, sub);
      forall i: nat | i > 0 ensures HasAt(s, sub, i) <==> HasAt(rest, sub, i - 1) {
        if i + |sub| <= |s| { assert s[i..i + |sub|] == rest[i - 1..i - 1 + |sub|]; }
      }
      if i: nat :| HasAt(rest, sub, i) { assert HasAt(s, sub, i + 1); }
    }
  }

  /** A rule about bittorrent: its protocol is a text with that word, or a list or object that has it. */
  ghost predicate AboutBittorrent(rule: Json) {
    && rule.Obj? && "protocol" in rule.fields
    && var p := rule.fields["protocol"];
       || (p.Str? && exists i: nat :: HasAt(p.s, "bittorrent", i))
       || (p.Arr? && Str("bittorrent") in p.items)
       || (p.Obj? && "bittorrent" in p.fields)
  }

  lemma MentionsIff(rule: Json)
    ensures MentionsBittorrent(rule) == Success(true) <==> AboutBittorrent(rule)
  {
    if rule.Obj? && "protocol" in rule.fields && rule.fields["protocol"].Str? {
      ContainsIff(rule.fields["protocol"].s, "bittorrent");
    }
    hide Contains, HasAt;
  }

  /** How often a rule occurs. */
  function Occurrences(rules: seq<Json>, rule: Json): nat {
    if rules == [] then 0 else (if rules[0] == rule then 1 else 0) + Occurrences(rules[1..], rule)
  }

  /** Exactly the rules that do not mention bittorrent are kept, as often as they occur. */
  lemma {:induction false} KeepsAllOthers(rules: seq<Json>, rule: Json)
    requires KeepRules(rules).Success?
    ensures Occurrences(KeepRules(rules).value, rule)
      == if AboutBittorrent(rule) then 0 else Occurrences(rules, rule)
  {
    hide AboutBittorrent;
    if rules != [] {
      MentionsIff(rules[0]);
      KeepsAllOthers(rules[1..], rule);
      var rest := KeepRules(rules[1..]).value;
      assert [] + rest == rest && ([rules[0]] + rest)[1..] == rest;
      hide MentionsBittorrent;
    }
  }

  /** And they stay in order. */
  lemma {:induction false} KeepsOrder(a: seq<Json>, b: seq<Json>)
    ensures KeepRules(a + b).Success? <==> KeepRules(a).Success? && KeepRules(b).Success?
    ensures KeepRules(a + b).Success? ==> KeepRules(a + b).value == KeepRules(a).value + KeepRules(b).value
  {
    hide MentionsBittorrent;
    if a == [] {
      assert a + b == b;
      if KeepRules(b).Success? {
        assert KeepRules(a).value + KeepRules(b).value == KeepRules(b).value;
      }
    } else {
      assert (a + b)[1..] == a[1..] + b;
      KeepsOrder(a[1..], b);
    }
  }

  /** The rules of a routing section; a missing list is empty. */
  function RulesOf(config: Fields): seq<Json> {
    if "routing" in config && config["routing"].Obj? && "rules" in config["routing"].fields
       && config["routing"].fields["rules"].Arr?
    then config["routing"].fields["rules"].items else []
  }

  lemma RoutingFrame(config: Fields, s: Settings)
    requires RenderRouting(config, s).Success?
    ensures var after := RenderRouting(config, s).value;
      && after - {"routing"} == config - {"routing"}
      && (s.blockBittorrent ==> after == config)
      && (!s.blockBittorrent ==>
            && KeepRules(RulesOf(config)).Success? && "routing" in after && after["routing"].Obj?
            && "routing" in config && config["routing"].Obj?
            && after["routing"].fields - {"rules"} == config["routing"].fields - {"rules"}
            && RulesOf(after) == KeepRules(RulesOf(config)).value)
  {
    hide MentionsBittorrent;
    if !s.blockBittorrent {
      var routing := config["routing"].fields;
      var after := RenderRouting(config, s).value;
      assert KeepRules([]) == Success([]);
      hide KeepRules;
      var rules := after["routing"].fields["rules"];
      assert routing["rules" := rules] - {"rules"} == routing - {"rules"};
      assert config["routing" := after["routing"]] - {"routing"} == config - {"routing"};
    }
  }

  lemma HeaderFrame(config: Fields, s: Settings)
    requires RenderHeader(config, s).Success?
    ensures var after := RenderHeader(config, s).value;
      && after - {"log", "api"} == config - {"log", "api"}
      && after["log"] == Obj(Child(config, "log").value["loglevel" := Str(s.logLevel)])
      && after["api"] == Obj(Child(config, "api").value["listen" := Str(s.apiAddress)])
  {
  }

  lemma InboundsFrame(config: Fields, s: Settings, users: Rows, keys: RealityKeys, tag: string)
    requires RenderInbounds(config, s, users, keys).Success?
    ensures var after := RenderInbounds(config, s, users, keys).value;
      && after - {"inbounds"} == config - {"inbounds"}
      && (tag !in MANAGED ==> InboundFields(Obj(after), tag) == InboundFields(Obj(config), tag))
  {
    hide RenderReality, RenderWs;
    var items := config["inbounds"].items;
    var r := RenderReality(items, s, users, keys).value;
    if tag !in MANAGED {
      RealityKeepsOthers(items, s, users, keys, tag);
      WsKeepsOthers(r, s, users, tag);
    }
  }

  /** The parts of a configuration that rendering writes. */
  const WRITTEN := {"log", "api", "inbounds", "routing"}

  /** The routing section: as in the template, or the template's without the bittorrent rules. */
  ghost predicate RoutedFrom(after: Fields, base: Fields, s: Settings) {
    if s.blockBittorrent then
      ("routing" in after <==> "routing" in base) && ("routing" in base ==> after["routing"] == base["routing"])
    else
      && KeepRules(RulesOf(base)).Success?
      && "routing" in after && after["routing"].Obj? && "routing" in base && base["routing"].Obj?
      && after["routing"].fields - {"rules"} == base["routing"].fields - {"rules"}
      && RulesOf(after) == KeepRules(RulesOf(base)).value
  }

  lemma RenderParts(
      s: Settings, users: Rows, keys: RealityKeys, template: Json) returns (base: Fields, c1: Fields, c2: Fields)
    requires Render(s, users, keys, template).Success?
    ensures StripComments(template) == Obj(base)
    ensures RenderHeader(base, s) == Success(c1) && RenderInbounds(c1, s, users, keys) == Success(c2)
    ensures RenderRouting(c2, s).Success? && Render(s, users, keys, template).value == Obj(RenderRouting(c2, s).value)
  {
    hide StripComments, RenderHeader, RenderInbounds, RenderRouting;
    base := StripComments(template).fields;
    c1 := RenderHeader(base, s).value;
    c2 := RenderInbounds(c1, s, users, keys).value;
  }

  lemma StillThere(a: Fields, b: Fields, dropped: set<string>, key: string)
    requires a - dropped == b - dropped && key !in dropped
    ensures key in a <==> key in b
    ensures key in a ==> a[key] == b[key]
  {
    assert key in a <==> key in a - dropped;
    assert key in b <==> key in b - dropped;
    assert key in a ==> a[key] == (a - dropped)[key] == (b - dropped)[key];
  }

  /** Three updates in a row, each of its own sections. */
  ghost predicate Chained(base: Fields, c1: Fields, c2: Fields, c3: Fields) {
    && c1 - {"log", "api"} == base - {"log", "api"}
    && c2 - {"inbounds"} == c1 - {"inbounds"}
    && c3 - {"routing"} == c2 - {"routing"}
  }

  lemma ChainKeeps(base: Fields, c1: Fields, c2: Fields, c3: Fields, key: string)
    requires Chained(base, c1, c2, c3)
    ensures key !in WRITTEN ==> (key in c3 <==> key in base) && (key in c3 ==> c3[key] == base[key])
    ensures key in {"log", "api"} ==> (key in c3 <==> key in c1) && (key in c3 ==> c3[key] == c1[key])
    ensures key == "inbounds" ==> (key in c3 <==> key in c2) && (key in c3 ==> c3[key] == c2[key])
    ensures key == "inbounds" ==> (key in base <==> key in c1) && (key in base ==> base[key] == c1[key])
    ensures key == "routing" ==> (key in c2 <==> key in base) && (key in c2 ==> c2[key] == base[key])
  {
    if key !in {"log", "api"} {
      StillThere(c1, base, {"log", "api"}, key);
    }
    if key != "inbounds" {
      StillThere(c2, c1, {"inbounds"}, key);
    }
    if key != "routing" {
      StillThere(c3, c2, {"routing"}, key);
    }
  }

  lemma ChainUnwritten(base: Fields, c1: Fields, c2: Fields, c3: Fields)
    requires Chained(base, c1, c2, c3)
    ensures c3 - WRITTEN == base - WRITTEN
  {
    forall key: string
      ensures key !in WRITTEN ==> (key in c3 <==> key in base) && (key in c3 ==> c3[key] == base[key])
    {
      ChainKeeps(base, c1, c2, c3, key);
    }
    hide Chained;
  }

  lemma RoutedSame(a: Fields, b: Fields, s: Settings, after: Fields)
    requires ("routing" in a <==> "routing" in b) && ("routing" in a ==> a["routing"] == b["routing"])
    requires RoutedFrom(after, a, s)
    ensures RoutedFrom(after, b, s)
  {
    hide KeepRules;
  }

  lemma RoutingIsRouted(config: Fields, s: Settings)
    requires RenderRouting(config, s).Success?
    ensures RoutedFrom(RenderRouting(config, s).value, config, s)
  {
    hide RenderRouting, KeepRules, RulesOf;
    RoutingFrame(config, s);
  }

  lemma SameInbounds(a: Fields, b: Fields, tag: string)
    requires ("inbounds" in a <==> "inbounds" in b) && ("inbounds" in a ==> a["inbounds"] == b["inbounds"])
    ensures InboundFields(Obj(a), tag) == InboundFields(Obj(b), tag)
  {
  }

  lemma HeaderReads(config: Fields, s: Settings)
    requires RenderHeader(config, s).Success?
    ensures Child(config, "log").Success? && Child(config, "api").Success?
    ensures "log" in RenderHeader(config, s).value && "api" in RenderHeader(config, s).value
  {
  }

  /**
   * Rendering sets the log level and the API address, filters the routing rules and
   * rewrites the managed inbounds; every other section and every other inbound is the
   * template's, stripped of comments.
   */
  lemma RenderFrame(s: Settings, users: Rows, keys: RealityKeys, template: Json, tag: string)
    requires Render(s, users, keys, template).Success?
    ensures var config, base := Render(s, users, keys, template).value, StripComments(template);
      && config.Obj? && base.Obj?
      && config.fields - WRITTEN == base.fields - WRITTEN
      && Child(base.fields, "log").Success? && Child(base.fields, "api").Success?
      && "log" in config.fields
      && config.fields["log"] == Obj(Child(base.fields, "log").value["loglevel" := Str(s.logLevel)])
      && "api" in config.fields
      && config.fields["api"] == Obj(Child(base.fields, "api").value["listen" := Str(s.apiAddress)])
      && RoutedFrom(config.fields, base.fields, s)
      && (tag !in MANAGED ==> InboundFields(config, tag) == InboundFields(base, tag))
  {
    hide StripComments, Render, RenderHeader, RenderInbounds, RenderRouting, RoutedFrom, InboundFields, Child, Chained;
    var base, c1, c2 := RenderParts(s, users, keys, template);
    var c3 := RenderRouting(c2, s).value;
    HeaderFrame(base, s);
    HeaderReads(base, s);
    InboundsFrame(c1, s, users, keys, tag);
    RoutingIsRouted(c2, s);
    IsChained(base, c1, c2, s, users, keys);
    ChainUnwritten(base, c1, c2, c3);
    ChainKeeps(base, c1, c2, c3, "log");
    ChainKeeps(base, c1, c2, c3, "api");
    ChainKeeps(base, c1, c2, c3, "routing");
    ChainKeeps(base, c1, c2, c3, "inbounds");
    RoutedSame(c2, base, s, c3);
    SameInbounds(c3, c2, tag);
    SameInbounds(base, c1, tag);
  }

  lemma IsChained(base: Fields, c1: Fields, c2: Fields, s: Settings, users: Rows, keys: RealityKeys)
    requires RenderHeader(base, s) == Success(c1) && RenderInbounds(c1, s, users, keys) == Success(c2)
    requires RenderRouting(c2, s).Success?
    ensures Chained(base, c1, c2, RenderRouting(c2, s).value)
  {
    hide RenderHeader, RenderInbounds, RenderRouting, KeepRules, RulesOf;
    HeaderFrame(base, s);
    InboundsFrame(c1, s, users, keys, REALITY);
    RoutingFrame(c2, s);
  }
}
