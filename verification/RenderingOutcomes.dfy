/** Exactly which templates can be rendered, and why the others cannot. */
module RenderingOutcomes {
  import opened Prelude
  import opened Json
  import opened Accounts
  import opened Rendering
  import opened LiveXray
  import opened RenderingFrame
  import opened InboundFrame

  // ----- finding an inbound ----------------------------------------------------------------

  ghost predicate AllObjects(items: seq<Json>) {
    forall i | 0 <= i < |items| :: items[i].Obj?
  }

  ghost predicate Untagged(items: seq<Json>, tag: string) {
    forall i | 0 <= i < |items| && items[i].Obj? :: !HasTag(items[i].fields, tag)
  }

  /** Entry `i` is the first with this tag, and nothing before it is no object. */
  ghost predicate First(items: seq<Json>, tag: string, i: nat) {
    i < |items| && AllObjects(items[..i + 1]) && HasTag(items[i].fields, tag) && Untagged(items[..i], tag)
  }

  lemma {:induction false} FindIff(items: seq<Json>, tag: string, i: nat)
    ensures FindInbound(items, tag) == Found(i) <==> First(items, tag, i)
    ensures FindInbound(items, tag) == Absent <==> AllObjects(items) && Untagged(items, tag)
    ensures FindInbound(items, tag).Found? ==> First(items, tag, FindInbound(items, tag).i)
  {
    hide HasTag;
    if items != [] && items[0].Obj? && !HasTag(items[0].fields, tag) {
      var rest := items[1..];
      FindIff(rest, tag, if i > 0 then i - 1 else 0);
      assert forall k | 0 <= k < |rest| :: rest[k] == items[k + 1];
      FirstOfRest(items, tag, i);
      if FindInbound(rest, tag).Found? { FirstOfRest(items, tag, FindInbound(rest, tag).i + 1); }
      assert AllObjects(items) <==> AllObjects(rest) by { ObjectsOfRest(items); }
      assert Untagged(items, tag) <==> Untagged(rest, tag) by { UntaggedRest(items, tag); }
    }
  }

  lemma ObjectsOfRest(items: seq<Json>)
    requires items != [] && items[0].Obj?
    ensures AllObjects(items) <==> AllObjects(items[1..])
  {
    assert forall k | 0 < k < |items| :: items[k] == items[1..][k - 1];
  }

  lemma UntaggedRest(items: seq<Json>, tag: string)
    requires items != [] && items[0].Obj? && !HasTag(items[0].fields, tag)
    ensures Untagged(items, tag) <==> Untagged(items[1..], tag)
  {
    hide HasTag;
    assert forall k | 0 < k < |items| :: items[k] == items[1..][k - 1];
  }

  lemma FirstOfRest(items: seq<Json>, tag: string, i: nat)
    requires items != [] && items[0].Obj? && !HasTag(items[0].fields, tag)
    ensures First(items, tag, i) <==> i > 0 && First(items[1..], tag, i - 1)
  {
    hide HasTag;
    if 0 < i < |items| {
      assert items[..i + 1][1..] == items[1..][..i] && items[..i][1..] == items[1..][..i - 1];
      ObjectsOfRest(items[..i + 1]);
      UntaggedRest(items[..i], tag);
    }
  }

  // ----- what each part asks of the template ---------------------------------------------------

  /** A section that is missing or an object. */
  ghost predicate Dict(f: Fields, key: string) {
    key in f ==> f[key].Obj?
  }

  ghost predicate RealityFits(f: Fields) {
    && Dict(f, "settings") && Dict(f, "streamSettings")
    && Dict(Section(f, "streamSettings"), "realitySettings")
  }

  lemma RealityFitsIff(f: Fields, s: Settings, users: Rows, keys: RealityKeys)
    ensures RealityInbound(f, s, users, keys).Success? <==> RealityFits(f)
    ensures RealityInbound(f, s, users, keys).Failure? ==> RealityInbound(f, s, users, keys).error == BadShape
  {
    hide Clients;
  }

  lemma WsFitsIff(f: Fields, s: Settings, users: Rows)
    ensures WsInbound(f, s, users).Success? <==> Dict(f, "settings")
    ensures WsInbound(f, s, users).Failure? ==> WsInbound(f, s, users).error == BadShape
  {
    hide Clients;
  }

  lemma {:induction false} DropFitsIff(items: seq<Json>, tag: string)
    ensures DropTag(items, tag).Success? <==> AllObjects(items)
    ensures DropTag(items, tag).Failure? ==> DropTag(items, tag).error == BadShape
  {
    if items != [] && items[0].Obj? {
      DropFitsIff(items[1..], tag);
      ObjectsOfRest(items);
    }
  }

  /** A rule whose protocol is missing, empty, or something that can be searched. */
  ghost predicate RuleFits(rule: Json) {
    && rule.Obj?
    && ("protocol" in rule.fields ==>
          var p := rule.fields["protocol"];
          p == Null || p == Bool(false) || p == Num(0) || p.Str? || p.Arr? || p.Obj?)
  }

  lemma {:induction false} RulesFitIff(rules: seq<Json>)
    ensures KeepRules(rules).Success? <==> forall i | 0 <= i < |rules| :: RuleFits(rules[i])
    ensures KeepRules(rules).Failure? ==> KeepRules(rules).error == BadShape
  {
    hide Contains;
    if rules != [] {
      RulesFitIff(rules[1..]);
      assert forall k | 0 < k < |rules| :: rules[k] == rules[1..][k - 1];
      assert MentionsBittorrent(rules[0]).Success? <==> RuleFits(rules[0]);
      hide RuleFits, MentionsBittorrent;
    }
  }

  ghost predicate RoutingFits(base: Fields, s: Settings) {
    s.blockBittorrent
    || (&& "routing" in base && base["routing"].Obj?
        && ("rules" in base["routing"].fields ==>
              var rules := base["routing"].fields["rules"];
              || rules == Obj(map[]) || rules == Str("")
              || (rules.Arr? && forall i | 0 <= i < |rules.items| :: RuleFits(rules.items[i]))))
  }

  lemma RoutingFitsIff(base: Fields, s: Settings)
    ensures RenderRouting(base, s).Success? <==> RoutingFits(base, s)
    ensures RenderRouting(base, s).Failure? ==> RenderRouting(base, s).error == BadShape
  {
    hide KeepRules, RuleFits;
    if "routing" in base && base["routing"].Obj? && "rules" in base["routing"].fields
       && base["routing"].fields["rules"].Arr?
    {
      RulesFitIff(base["routing"].fields["rules"].items);
    }
  }

  // ----- the inbounds ---------------------------------------------------------------------------

  ghost predicate RealityThere(items: seq<Json>) {
    exists i: nat :: First(items, "vless-reality", i) && RealityFits(items[i].fields)
  }

  ghost predicate WsThere(items: seq<Json>) {
    exists j: nat :: First(items, "vless-ws-backend", j) && Dict(items[j].fields, "settings")
  }

  ghost predicate InboundsFit(items: seq<Json>, s: Settings) {
    RealityThere(items) && if s.enableWsFallback then WsThere(items) else AllObjects(items)
  }

  lemma FirstIsOnly(items: seq<Json>, tag: string, i: nat, j: nat)
    requires First(items, tag, i) && First(items, tag, j)
    ensures i == j
  {
    hide HasTag, First;
    FindIff(items, tag, i);
    FindIff(items, tag, j);
  }

  lemma RealityItemsFit(items: seq<Json>, s: Settings, users: Rows, keys: RealityKeys)
    ensures RenderReality(items, s, users, keys).Success? <==> RealityThere(items)
    ensures RenderReality(items, s, users, keys) == Failure(MissingInbound(REALITY)) <==>
            AllObjects(items) && Untagged(items, "vless-reality")
    ensures RenderReality(items, s, users, keys).Failure? ==>
              RenderReality(items, s, users, keys).error in {BadShape, MissingInbound(REALITY)}
  {
    hide First, RealityInbound, RealityFits, HasTag, AllObjects, Untagged;
    FindIff(items, REALITY, 0);
    match FindInbound(items, REALITY)
    case Found(i) =>
      FindIff(items, REALITY, i);
      RealityFitsIff(items[i].fields, s, users, keys);
      forall j: nat | First(items, REALITY, j) ensures j == i { FirstIsOnly(items, REALITY, i, j); }
    case _ =>
      forall j: nat ensures !First(items, REALITY, j) { FindIff(items, REALITY, j); }
  }

  /** Replacing the REALITY entry by another of that tag changes nothing for the search for other tags. */
  lemma SameSearch(items: seq<Json>, i: nat, f: Fields, j: nat)
    requires First(items, REALITY, i) && HasTag(f, REALITY)
    ensures var after := items[i := Obj(f)];
            && (First(after, WS_BACKEND, j) <==> First(items, WS_BACKEND, j))
            && (First(items, WS_BACKEND, j) ==> j < |items| && items[j].Obj? && after[j] == items[j])
            && (AllObjects(after) <==> AllObjects(items))
            && (Untagged(after, WS_BACKEND) <==> Untagged(items, WS_BACKEND))
  {
    var after := items[i := Obj(f)];
    assert items[i] == items[..i + 1][i] && items[i].Obj?;
    assert forall k | 0 <= k < |items| :: after[k] == if k == i then Obj(f) else items[k];
    assert !HasTag(items[i].fields, WS_BACKEND) && !HasTag(f, WS_BACKEND);
    hide HasTag;
    if First(items, WS_BACKEND, j) { FirstIsThere(items, WS_BACKEND, j); }
  }

  lemma WsItemsFit(items: seq<Json>, s: Settings, users: Rows)
    ensures RenderWs(items, s, users).Success? <==> if s.enableWsFallback then WsThere(items) else AllObjects(items)
    ensures RenderWs(items, s, users) == Failure(MissingInbound(WS_BACKEND)) <==>
            s.enableWsFallback && AllObjects(items) && Untagged(items, "vless-ws-backend")
    ensures RenderWs(items, s, users).Failure? ==>
              RenderWs(items, s, users).error in {BadShape, MissingInbound(WS_BACKEND)}
  {
    hide First, WsInbound, Dict, HasTag, AllObjects, Untagged, DropTag;
    FindIff(items, WS_BACKEND, 0);
    DropFitsIff(items, WS_BACKEND);
    match FindInbound(items, WS_BACKEND)
    case Found(i) =>
      FindIff(items, WS_BACKEND, i);
      WsFitsIff(items[i].fields, s, users);
      forall j: nat | First(items, WS_BACKEND, j) ensures j == i { FirstIsOnly(items, WS_BACKEND, i, j); }
    case Absent =>
      forall j: nat ensures !First(items, WS_BACKEND, j) { FindIff(items, WS_BACKEND, j); }
    case Malformed =>
      forall j: nat ensures !First(items, WS_BACKEND, j) { FindIff(items, WS_BACKEND, j); }
      MalformedHasNoObject(items, WS_BACKEND);
  }

  lemma {:induction false} MalformedHasNoObject(items: seq<Json>, tag: string)
    requires FindInbound(items, tag).Malformed?
    ensures !AllObjects(items)
  {
    if items[0].Obj? {
      MalformedHasNoObject(items[1..], tag);
      ObjectsOfRest(items);
    }
  }

  ghost predicate HeaderFits(base: Fields) {
    Dict(base, "log") && Dict(base, "api")
  }

  /** No inbounds at all, or what Python iterates over like an empty list. */
  ghost predicate NoInbounds(base: Fields) {
    "inbounds" in base ==> base["inbounds"] == Obj(map[]) || base["inbounds"] == Str("")
  }

  lemma HeaderFitsIff(base: Fields, s: Settings)
    ensures RenderHeader(base, s).Success? <==> HeaderFits(base)
    ensures RenderHeader(base, s).Failure? ==> RenderHeader(base, s).error == BadShape
    ensures RenderHeader(base, s).Success? ==>
              var after := RenderHeader(base, s).value;
              && ("inbounds" in after <==> "inbounds" in base)
              && ("inbounds" in base ==> after["inbounds"] == base["inbounds"])
              && ("routing" in after <==> "routing" in base)
              && ("routing" in base ==> after["routing"] == base["routing"])
  {
  }

  lemma InboundsFitIff(base: Fields, s: Settings, users: Rows, keys: RealityKeys)
    ensures RenderInbounds(base, s, users, keys).Success? <==>
            "inbounds" in base && base["inbounds"].Arr? && InboundsFit(base["inbounds"].items, s)
    ensures RenderInbounds(base, s, users, keys) == Failure(MissingInbound(REALITY)) <==>
            || NoInbounds(base)
            || ("inbounds" in base && base["inbounds"].Arr?
                && AllObjects(base["inbounds"].items) && Untagged(base["inbounds"].items, "vless-reality"))
    ensures RenderInbounds(base, s, users, keys) == Failure(MissingInbound(WS_BACKEND)) <==>
            && "inbounds" in base && base["inbounds"].Arr? && RealityThere(base["inbounds"].items)
            && s.enableWsFallback
            && AllObjects(base["inbounds"].items) && Untagged(base["inbounds"].items, "vless-ws-backend")
    ensures RenderInbounds(base, s, users, keys).Failure? ==>
              RenderInbounds(base, s, users, keys).error in
              {BadShape, MissingInbound(REALITY), MissingInbound(WS_BACKEND)}
    ensures RenderInbounds(base, s, users, keys).Success? ==>
              var after := RenderInbounds(base, s, users, keys).value;
              && ("routing" in after <==> "routing" in base)
              && ("routing" in base ==> after["routing"] == base["routing"])
  {
    hide RenderReality, RenderWs, AllObjects, Untagged, RealityThere, WsThere;
    if "inbounds" in base && base["inbounds"].Arr? {
      var items := base["inbounds"].items;
      RealityItemsFit(items, s, users, keys);
      if RenderReality(items, s, users, keys).Success? {
        WsItemsFit(RenderReality(items, s, users, keys).value, s, users);
        AfterReality(items, s, users, keys);
      }
    }
  }

  lemma AfterReality(items: seq<Json>, s: Settings, users: Rows, keys: RealityKeys)
    requires RenderReality(items, s, users, keys).Success?
    ensures var after := RenderReality(items, s, users, keys).value;
            && (WsThere(after) <==> WsThere(items)) && (AllObjects(after) <==> AllObjects(items))
            && (Untagged(after, WS_BACKEND) <==> Untagged(items, WS_BACKEND))
  {
    hide RealityInbound, First, WsThere, AllObjects, Untagged, RenderedStream, ListsClients;
    var i := FindInbound(items, REALITY).i;
    var f := RealityInbound(items[i].fields, s, users, keys).value;
    FindIff(items, REALITY, i);
    RealityIsRendered(items[i].fields, s, users, keys);
    SameSearch(items, i, f, 0);
    WsThereAfter(items, i, f);
  }

  lemma WsThereAfter(items: seq<Json>, i: nat, f: Fields)
    requires First(items, REALITY, i) && HasTag(f, REALITY)
    ensures i < |items| && (WsThere(items[i := Obj(f)]) <==> WsThere(items))
  {
    FirstIsThere(items, REALITY, i);
    hide First, Dict, HasTag, AllObjects, Untagged;
    var after := items[i := Obj(f)];
    if WsThere(items) {
      var j: nat :| First(items, WS_BACKEND, j) && Dict(items[j].fields, "settings");
      SameSearch(items, i, f, j);
    }
    if WsThere(after) {
      var j: nat :| First(after, WS_BACKEND, j) && Dict(after[j].fields, "settings");
      SameSearch(items, i, f, j);
    }
  }

  lemma FirstIsThere(items: seq<Json>, tag: string, j: nat)
    requires First(items, tag, j)
    ensures j < |items| && items[j].Obj?
  {
    assert items[..j + 1][j] == items[j];
  }

  // ----- the whole template ------------------------------------------------------------------------

  /** Everything `render_config` asks of a template without its comments. */
  ghost predicate TemplateFits(base: Json, s: Settings) {
    && base.Obj? && HeaderFits(base.fields) && ListsInbounds(base)
    && InboundsFit(base.fields["inbounds"].items, s) && RoutingFits(base.fields, s)
  }

  /**
   A template can be rendered exactly when it fits; a missing inbound is named
   exactly when it is what is missing, and everything else is a wrong shape.
   */
  lemma RenderSucceedsIff(s: Settings, users: Rows, keys: RealityKeys, template: Json)
    ensures var r, base := Render(s, users, keys, template), StripComments(template);
            && (r.Success? <==> TemplateFits(base, s))
            && (r == Failure(MissingInbound(REALITY)) <==>
                  && base.Obj? && HeaderFits(base.fields)
                  && (|| NoInbounds(base.fields)
                      || (&& ListsInbounds(base) && AllObjects(base.fields["inbounds"].items)
                          && Untagged(base.fields["inbounds"].items, "vless-reality"))))
            && (r == Failure(MissingInbound(WS_BACKEND)) <==>
                  && base.Obj? && HeaderFits(base.fields) && ListsInbounds(base) && s.enableWsFallback
                  && RealityThere(base.fields["inbounds"].items)
                  && AllObjects(base.fields["inbounds"].items)
                  && Untagged(base.fields["inbounds"].items, "vless-ws-backend"))
            && (r.Failure? ==> r.error in {BadShape, MissingInbound(REALITY), MissingInbound(WS_BACKEND)})
  {
    hide StripComments, RenderHeader, RenderInbounds, RenderRouting, HeaderFits, InboundsFit, RoutingFits, RealityThere,
      AllObjects, Untagged;
    var base := StripComments(template);
    if base.Obj? {
      HeaderFitsIff(base.fields, s);
      if RenderHeader(base.fields, s).Success? {
        var c1 := RenderHeader(base.fields, s).value;
        InboundsFitIff(c1, s, users, keys);
        if RenderInbounds(c1, s, users, keys).Success? {
          var c2 := RenderInbounds(c1, s, users, keys).value;
          RoutingFitsIff(c2, s);
          SameRouting(c2, base.fields, s);
        }
      }
    }
  }

  lemma SameRouting(a: Fields, b: Fields, s: Settings)
    requires ("routing" in a <==> "routing" in b) && ("routing" in b ==> a["routing"] == b["routing"])
    ensures RoutingFits(a, s) <==> RoutingFits(b, s)
  {
    hide RuleFits;
  }
}
