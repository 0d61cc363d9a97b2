/** What rendering takes over from the template's inbounds, entry by entry and key by key. */
module InboundFrame {
  import opened Prelude
  import opened Json
  import opened Accounts
  import opened Rendering
  import opened LiveXray
  import opened RenderingFrame

  /** The section of that name, empty when there is none. */
  ghost function Section(f: Fields, key: string): Fields {
    if key in f && f[key].Obj? then f[key].fields else map[]
  }

  ghost predicate SameBut(after: Fields, before: Fields, written: set<string>) {
    after - written == before - written
  }

  /** A value that is set only where the template has none. */
  ghost predicate Defaulted(after: Fields, before: Fields, key: string, value: Json) {
    key in after && after[key] == if key in before then before[key] else value
  }

  /** The REALITY inbound is the template's but for what the settings, keys and accounts decide. */
  ghost predicate RealityFrom(after: Fields, before: Fields) {
    && SameBut(after, before, {"port", "listen", "settings", "streamSettings"})
    && SameBut(Section(after, "settings"), Section(before, "settings"), {"decryption", "clients"})
    && var stream, stream' := Section(before, "streamSettings"), Section(after, "streamSettings");
       && SameBut(stream', stream, {"network", "security", "realitySettings"})
       && var r, r' := Section(stream, "realitySettings"), Section(stream', "realitySettings");
          && SameBut(r', r, {"target", "serverNames", "privateKey", "shortIds", "show", "xver"})
          && Defaulted(r', r, "show", Bool(false)) && Defaulted(r', r, "xver", Num(0))
  }

  /** The fallback inbound keeps the template's protocol and stream settings whole. */
  ghost predicate WsFrom(after: Fields, before: Fields) {
    && SameBut(after, before, {"port", "listen", "settings"})
    && SameBut(Section(after, "settings"), Section(before, "settings"), {"decryption", "clients"})
  }

  lemma ChildIsSection(f: Fields, key: string)
    requires Child(f, key).Success?
    ensures Child(f, key).value == Section(f, key)
  {
  }

  lemma StreamFrame(stream: Fields, s: Settings, keys: RealityKeys)
    requires RealityStream(stream, s, keys).Success?
    ensures var after := RealityStream(stream, s, keys).value;
            && SameBut(after, stream, {"network", "security", "realitySettings"})
            && var r, r' := Section(stream, "realitySettings"), Section(after, "realitySettings");
               && SameBut(r', r, {"target", "serverNames", "privateKey", "shortIds", "show", "xver"})
               && Defaulted(r', r, "show", Bool(false)) && Defaulted(r', r, "xver", Num(0))
  {
    ChildIsSection(stream, "realitySettings");
  }

  lemma RealityFrame(f: Fields, s: Settings, users: Rows, keys: RealityKeys)
    requires RealityInbound(f, s, users, keys).Success?
    ensures RealityFrom(RealityInbound(f, s, users, keys).value, f)
  {
    hide RealityStream, Clients, Defaulted;
    ChildIsSection(f, "settings");
    ChildIsSection(f, "streamSettings");
    StreamFrame(Section(f, "streamSettings"), s, keys);
  }

  lemma WsFrame(f: Fields, s: Settings, users: Rows)
    requires WsInbound(f, s, users).Success?
    ensures WsFrom(WsInbound(f, s, users).value, f)
    ensures HasTag(f, WS_BACKEND) ==> HasTag(WsInbound(f, s, users).value, WS_BACKEND)
  {
    hide Clients;
    ChildIsSection(f, "settings");
  }

  // ----- the list of inbounds -------------------------------------------------------------

  predicate IsManaged(ib: Json) {
    ib.Obj? && exists tag :: tag in MANAGED && HasTag(ib.fields, tag)
  }

  /** The entries that are not managed, in order. */
  ghost function Others(items: seq<Json>): seq<Json> {
    if items == [] then [] else (if IsManaged(items[0]) then [] else [items[0]]) + Others(items[1..])
  }

  lemma {:induction false} UpdateKeepsOthersAll(items: seq<Json>, i: nat, ib: Json)
    requires i < |items| && IsManaged(items[i]) && IsManaged(ib)
    ensures Others(items[i := ib]) == Others(items)
  {
    hide IsManaged;
    var after := items[i := ib];
    if i > 0 {
      assert after[1..] == items[1..][i - 1 := ib];
      UpdateKeepsOthersAll(items[1..], i - 1, ib);
    } else {
      assert after[1..] == items[1..];
    }
  }

  lemma {:induction false} DropKeepsOthers(items: seq<Json>)
    requires DropTag(items, WS_BACKEND).Success?
    ensures Others(DropTag(items, WS_BACKEND).value) == Others(items)
  {
    if items != [] {
      DropKeepsOthers(items[1..]);
      var rest := DropTag(items[1..], WS_BACKEND).value;
      if HasTag(items[0].fields, WS_BACKEND) {
        assert IsManaged(items[0]);
        assert [] + rest == rest;
      } else {
        assert ([items[0]] + rest)[1..] == rest;
      }
    }
  }

  lemma TaggedIsManaged(f: Fields, tag: string)
    requires tag in MANAGED && HasTag(f, tag)
    ensures IsManaged(Obj(f))
  {
    assert Obj(f).fields == f;
  }

  lemma RealityItems(items: seq<Json>, s: Settings, users: Rows, keys: RealityKeys)
    requires RenderReality(items, s, users, keys).Success?
    ensures var after := RenderReality(items, s, users, keys).value;
            && Others(after) == Others(items)
            && FieldsTagged(after, WS_BACKEND) == FieldsTagged(items, WS_BACKEND)
            && FieldsTagged(items, REALITY).Some? && FieldsTagged(after, REALITY).Some?
            && RealityFrom(FieldsTagged(after, REALITY).value, FieldsTagged(items, REALITY).value)
  {
    var i := FindInbound(items, REALITY).i;
    var f := RealityInbound(items[i].fields, s, users, keys).value;
    RealityIsRendered(items[i].fields, s, users, keys);
    RealityFrame(items[i].fields, s, users, keys);
    hide RealityInbound, RealityFrom, RenderedStream, ListsClients, IsManaged;
    FindAfterUpdate(items, i, f, REALITY, WS_BACKEND);
    TaggedIsManaged(items[i].fields, REALITY);
    TaggedIsManaged(f, REALITY);
    UpdateKeepsOthersAll(items, i, Obj(f));
  }

  lemma WsItems(items: seq<Json>, s: Settings, users: Rows)
    requires RenderWs(items, s, users).Success?
    ensures var after := RenderWs(items, s, users).value;
            && Others(after) == Others(items)
            && FieldsTagged(after, REALITY) == FieldsTagged(items, REALITY)
            && (s.enableWsFallback ==>
                  && FieldsTagged(items, WS_BACKEND).Some? && FieldsTagged(after, WS_BACKEND).Some?
                  && WsFrom(FieldsTagged(after, WS_BACKEND).value, FieldsTagged(items, WS_BACKEND).value))
  {
    hide WsFrom, IsManaged;
    match FindInbound(items, WS_BACKEND)
    case Found(j) =>
      if s.enableWsFallback {
        var f := WsInbound(items[j].fields, s, users).value;
        WsFrame(items[j].fields, s, users);
        hide WsInbound;
        FindAfterUpdate(items, j, f, WS_BACKEND, REALITY);
        TaggedIsManaged(items[j].fields, WS_BACKEND);
        TaggedIsManaged(f, WS_BACKEND);
        UpdateKeepsOthersAll(items, j, Obj(f));
      } else {
        FindAfterDrop(items, WS_BACKEND, REALITY);
        DropKeepsOthers(items);
      }
    case _ =>
  }

  /**
   The managed inbounds are the template's but for what settings, keys and accounts
   decide, and every other entry of the list is there as often and in the same order.
   */
  lemma RenderedInboundsFrame(s: Settings, users: Rows, keys: RealityKeys, template: Json)
    requires Render(s, users, keys, template).Success?
    ensures var config, base := Render(s, users, keys, template).value, StripComments(template);
            && InboundFields(base, REALITY).Some? && InboundFields(config, REALITY).Some?
            && RealityFrom(InboundFields(config, REALITY).value, InboundFields(base, REALITY).value)
            && (s.enableWsFallback ==>
                  && InboundFields(base, WS_BACKEND).Some? && InboundFields(config, WS_BACKEND).Some?
                  && WsFrom(InboundFields(config, WS_BACKEND).value, InboundFields(base, WS_BACKEND).value))
            && ListsInbounds(config) && ListsInbounds(base)
            && Others(config.fields["inbounds"].items) == Others(base.fields["inbounds"].items)
  {
    hide StripComments, Render, RenderHeader, RenderRouting, RealityFrom, WsFrom, Chained, RenderReality, RenderWs,
      Others;
    var base, c1, c2 := RenderParts(s, users, keys, template);
    var c3 := RenderRouting(c2, s).value;
    IsChained(base, c1, c2, s, users, keys);
    ChainKeeps(base, c1, c2, c3, "inbounds");
    var items := c1["inbounds"].items;
    RealityItems(items, s, users, keys);
    WsItems(RenderReality(items, s, users, keys).value, s, users);
  }
}
