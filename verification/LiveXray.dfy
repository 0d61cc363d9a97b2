/**
 The running Xray process as far as RailGate can observe it: the structure of
 the configuration it loaded and, per managed inbound, who may log in.
 */
module LiveXray {
  import opened Prelude
  import opened Json
  import opened Accounts
  import opened Rendering

  datatype Account = Account(id: string, flow: string)

  /** The account list of one inbound, keyed by e-mail. */
  type AccountList = map<string, Account>

  datatype Live = Live(skeleton: Json, lists: map<string, AccountList>)

  const MANAGED := {REALITY, WS_BACKEND}

  function InboundFields(config: Json, tag: string): Option<Fields> {
    if config.Obj? && "inbounds" in config.fields && config.fields["inbounds"].Arr?
    then FieldsTagged(config.fields["inbounds"].items, tag)
    else None
  }

  function FieldsTagged(items: seq<Json>, tag: string): Option<Fields> {
    match FindInbound(items, tag)
    case Found(i) => Some(items[i].fields)
    case _ => None
  }

  /** `client.get("flow", "") or ""`. */
  function ClientFlow(c: Fields): string {
    if "flow" in c && c["flow"].Str? then c["flow"].s else ""
  }

  /** The dict comprehension over a client list: the last entry of an e-mail wins. */
  function ClientAccounts(clients: seq<Json>): Option<AccountList> {
    if clients == [] then Some(map[])
    else
      var last := clients[|clients| - 1];
      match ClientAccounts(clients[..|clients| - 1])
      case None => None
      case Some(m) =>
        if && last.Obj? && "email" in last.fields && last.fields["email"].Str?
           && "id" in last.fields && last.fields["id"].Str?
        then Some(m[last.fields["email"].s := Account(last.fields["id"].s, ClientFlow(last.fields))])
        else None
  }

  /** The accounts `config` lists under `tag`; `None` when there is no such list. */
  function DesiredAccounts(config: Json, tag: string): Option<AccountList> {
    match InboundFields(config, tag)
    case None => None
    case Some(f) =>
      if && "settings" in f && f["settings"].Obj?
         && "clients" in f["settings"].fields && f["settings"].fields["clients"].Arr?
      then ClientAccounts(f["settings"].fields["clients"].items)
      else None
  }

  function Load(config: Json): Live {
    Live(Skeleton(config),
         map tag | tag in MANAGED && DesiredAccounts(config, tag).Some? :: DesiredAccounts(config, tag).value)
  }

  // ----- what a rendered configuration lists -------------------------------

  function AccountOf(u: User, tag: string): Account {
    Account(u.uuid, if tag == REALITY then FlowOf(u) else "")
  }

  /**
   The credentials this account logs in with: its own UUID, and on REALITY its
   own flow, where an account without one has Vision; other inbounds have none.
   */
  ghost predicate Belongs(a: Account, u: User, tag: string) {
    && a.id == u.uuid
    && a.flow == if tag != REALITY then "" else if u.flow == "" then "xtls-rprx-vision" else u.flow
  }

  lemma AccountBelongs(a: Account, u: User, tag: string)
    ensures Belongs(a, u, tag) <==> a == AccountOf(u, tag)
    ensures u.Email() == u.username + "@railgate"
  {
  }

  function AccountsOf(users: Rows, tag: string): AccountList {
    if users == [] then map[]
    else AccountsOf(users[..|users| - 1], tag)[users[|users| - 1].Email() := AccountOf(users[|users| - 1], tag)]
  }

  lemma SameEmail(u: User, v: User)
    requires u.Email() == v.Email()
    ensures u.username == v.username
  {
    assert u.username == u.Email()[..|u.Email()| - 9] == v.username;
  }

  lemma {:induction false} AccountAt(users: Rows, tag: string, i: nat)
    requires Distinct(users) && i < |users|
    ensures users[i].Email() in AccountsOf(users, tag)
    ensures AccountsOf(users, tag)[users[i].Email()] == AccountOf(users[i], tag)
  {
    var n := |users| - 1;
    if i < n {
      AccountAt(users[..n], tag, i);
      if users[i].Email() == users[n].Email() { SameEmail(users[i], users[n]); }
    }
  }

  lemma {:induction false} AccountBacked(users: Rows, tag: string, e: string) returns (i: nat)
    requires e in AccountsOf(users, tag)
    ensures i < |users| && users[i].Email() == e
  {
    i := |users| - 1;
    if users[i].Email() != e { i := AccountBacked(users[..i], tag, e); }
  }

  /** With unique usernames the list holds each account once, under its own e-mail. */
  lemma AccountsExactly(users: Rows, tag: string)
    requires Distinct(users)
    ensures AccountsOf(users, tag).Keys == set i | 0 <= i < |users| :: users[i].username + "@railgate"
    ensures forall i | 0 <= i < |users| ::
              Belongs(AccountsOf(users, tag)[users[i].username + "@railgate"], users[i], tag)
  {
    forall i | 0 <= i < |users|
      ensures users[i].Email() == users[i].username + "@railgate" && users[i].Email() in AccountsOf(users, tag)
      ensures Belongs(AccountsOf(users, tag)[users[i].Email()], users[i], tag)
    {
      AccountAt(users, tag, i);
      AccountBelongs(AccountsOf(users, tag)[users[i].Email()], users[i], tag);
    }
    hide Belongs;
    forall e | e in AccountsOf(users, tag) ensures exists i :: 0 <= i < |users| && users[i].Email() == e {
      var i := AccountBacked(users, tag, e);
    }
  }

  lemma {:induction false} EmailsNonempty(users: Rows, tag: string)
    ensures "" !in AccountsOf(users, tag)
  {
    if users != [] { EmailsNonempty(users[..|users| - 1], tag); }
  }

  lemma {:induction false} ClientsAreAccounts(users: Rows, tag: string)
    requires tag in MANAGED
    ensures ClientAccounts(Clients(users, tag == REALITY).items) == Some(AccountsOf(users, tag))
  {
    var clients := Clients(users, tag == REALITY).items;
    if users != [] {
      var n := |users| - 1;
      ClientsAreAccounts(users[..n], tag);
      assert clients[..n] == Clients(users[..n], tag == REALITY).items;
    }
  }

  lemma FindTail(items: seq<Json>, tag: string)
    requires items != [] && items[0].Obj? && !HasTag(items[0].fields, tag)
    ensures FieldsTagged(items, tag) == FieldsTagged(items[1..], tag)
  {
  }

  lemma {:induction false} FindAfterUpdate(items: seq<Json>, i: nat, f: Fields, tag: string, other: string)
    requires FindInbound(items, tag) == Found(i) && HasTag(f, tag) && tag != other
    ensures FieldsTagged(items[i := Obj(f)], tag) == Some(f)
    ensures FieldsTagged(items[i := Obj(f)], other) == FieldsTagged(items, other)
  {
    var after := items[i := Obj(f)];
    if !HasTag(items[0].fields, other) {
      FindTail(items, other);
      FindTail(after, other);
    }
    if i > 0 {
      assert after[1..] == items[1..][i - 1 := Obj(f)];
      FindTail(items, tag);
      FindTail(after, tag);
      FindAfterUpdate(items[1..], i - 1, f, tag, other);
    } else {
      assert after[1..] == items[1..];
    }
  }

  lemma {:induction false} FindAfterDrop(items: seq<Json>, tag: string, other: string)
    requires DropTag(items, tag).Success? && tag != other
    ensures FieldsTagged(DropTag(items, tag).value, tag) == None
    ensures FieldsTagged(DropTag(items, tag).value, other) == FieldsTagged(items, other)
  {
    if items != [] {
      FindAfterDrop(items[1..], tag, other);
      var rest := DropTag(items[1..], tag).value;
      if HasTag(items[0].fields, tag) {
        assert [] + rest == rest;
        FindTail(items, other);
      } else {
        var after := [items[0]] + rest;
        assert after[1..] == rest;
        FindTail(after, tag);
        if !HasTag(items[0].fields, other) {
          FindTail(items, other);
          FindTail(after, other);
        }
      }
    }
  }

  /** The REALITY stream settings carry the configured keys and target. */
  predicate RenderedStream(stream: Fields, s: Settings, keys: RealityKeys) {
    && "network" in stream && stream["network"] == Str("raw")
    && "security" in stream && stream["security"] == Str("reality")
    && "realitySettings" in stream && stream["realitySettings"].Obj?
    && var r := stream["realitySettings"].fields;
       && "privateKey" in r && r["privateKey"] == Str(keys.privateKey)
       && "shortIds" in r && r["shortIds"] == Arr([Str(keys.shortId)])
       && "target" in r && r["target"] == Str(s.realityDestination)
       && "serverNames" in r && r["serverNames"] == Arr([Str(s.realityServerName)])
       && "show" in r && "xver" in r
  }

  lemma StreamIsRendered(stream: Fields, s: Settings, keys: RealityKeys)
    requires RealityStream(stream, s, keys).Success?
    ensures RenderedStream(RealityStream(stream, s, keys).value, s, keys)
  {
  }

  /** The client entry of an account; XTLS Vision is invalid on a WebSocket, so there it has no flow. */
  ghost predicate IsClientOf(c: Json, u: User, vision: bool) {
    c == Obj(
      if vision then
        map["id" := Str(u.uuid), "email" := Str(u.username + "@railgate"), "level" := Num(0),
            "flow" := Str(if u.flow == "" then "xtls-rprx-vision" else u.flow)]
      else
        map["id" := Str(u.uuid), "email" := Str(u.username + "@railgate"), "level" := Num(0)])
  }

  ghost predicate ListsClients(clients: Json, users: Rows, vision: bool) {
    && clients.Arr? && |clients.items| == |users|
    && forall i | 0 <= i < |users| :: IsClientOf(clients.items[i], users[i], vision)
  }

  lemma ClientsAre(clients: Json, users: Rows, vision: bool)
    ensures ListsClients(clients, users, vision) <==> clients == Clients(users, vision)
  {
    var all := Clients(users, vision).items;
    forall i | 0 <= i < |users| ensures IsClientOf(all[i], users[i], vision) {
    }
    hide Client;
    if ListsClients(clients, users, vision) {
      forall i | 0 <= i < |users| ensures clients.items[i] == all[i] {
        assert IsClientOf(clients.items[i], users[i], vision);
      }
      assert clients.items == all;
    }
  }

  /** The REALITY inbound carries the configured port, stream settings and accounts. */
  ghost predicate RenderedReality(f: Fields, s: Settings, users: Rows, keys: RealityKeys) {
    && HasTag(f, REALITY) && "port" in f && f["port"] == Num(s.xrayPort)
    && "listen" in f && f["listen"] == Str("0.0.0.0")
    && "settings" in f && f["settings"].Obj?
    && "clients" in f["settings"].fields && ListsClients(f["settings"].fields["clients"], users, true)
    && "decryption" in f["settings"].fields && f["settings"].fields["decryption"] == Str("none")
    && "streamSettings" in f && f["streamSettings"].Obj?
    && RenderedStream(f["streamSettings"].fields, s, keys)
  }

  lemma RealityIsRendered(f: Fields, s: Settings, users: Rows, keys: RealityKeys)
    requires HasTag(f, REALITY) && RealityInbound(f, s, users, keys).Success?
    ensures RenderedReality(RealityInbound(f, s, users, keys).value, s, users, keys)
  {
    hide RealityStream, RenderedStream, Clients, ListsClients;
    ClientsAre(Clients(users, true), users, true);
    StreamIsRendered(Child(f, "streamSettings").value, s, keys);
  }

  lemma RealityLists(items: seq<Json>, s: Settings, users: Rows, keys: RealityKeys)
    requires RenderReality(items, s, users, keys).Success?
    ensures var f := FieldsTagged(RenderReality(items, s, users, keys).value, REALITY);
            f.Some? && RenderedReality(f.value, s, users, keys)
  {
    var i := FindInbound(items, REALITY).i;
    RealityIsRendered(items[i].fields, s, users, keys);
    var f := RealityInbound(items[i].fields, s, users, keys).value;
    hide RealityInbound, RenderedStream, ListsClients;
    FindAfterUpdate(items, i, f, REALITY, WS_BACKEND);
  }

  /** The fallback inbound is reachable from the loopback interface only. */
  ghost predicate RenderedWs(f: Fields, s: Settings, users: Rows) {
    && HasTag(f, WS_BACKEND) && "port" in f && f["port"] == Num(s.wsBackendPort)
    && "listen" in f && f["listen"] == Str("127.0.0.1")
    && "settings" in f && f["settings"].Obj?
    && "clients" in f["settings"].fields && ListsClients(f["settings"].fields["clients"], users, false)
    && "decryption" in f["settings"].fields && f["settings"].fields["decryption"] == Str("none")
  }

  lemma WsLists(items: seq<Json>, s: Settings, users: Rows)
    requires RenderWs(items, s, users).Success?
    ensures var r := RenderWs(items, s, users).value;
            && FieldsTagged(r, REALITY) == FieldsTagged(items, REALITY)
            && (s.enableWsFallback ==>
                  FieldsTagged(r, WS_BACKEND).Some? && RenderedWs(FieldsTagged(r, WS_BACKEND).value, s, users))
            && (!s.enableWsFallback ==> FieldsTagged(r, WS_BACKEND) == None)
  {
    hide Clients, ListsClients;
    ClientsAre(Clients(users, false), users, false);
    match FindInbound(items, WS_BACKEND)
    case Found(j) =>
      if s.enableWsFallback {
        FindAfterUpdate(items, j, WsInbound(items[j].fields, s, users).value, WS_BACKEND, REALITY);
      } else {
        FindAfterDrop(items, WS_BACKEND, REALITY);
      }
    case _ =>
  }

  function ManagedTags(s: Settings): seq<string> {
    if s.enableWsFallback then [REALITY, WS_BACKEND] else [REALITY]
  }

  lemma DesiredIs(config: Json, tag: string, users: Rows)
    requires tag in MANAGED && InboundFields(config, tag).Some?
    requires var f := InboundFields(config, tag).value;
      && "settings" in f && f["settings"].Obj?
      && "clients" in f["settings"].fields && ListsClients(f["settings"].fields["clients"], users, tag == REALITY)
    ensures DesiredAccounts(config, tag) == Some(AccountsOf(users, tag))
  {
    hide InboundFields, ClientAccounts, AccountsOf, ListsClients, Client;
    ClientsAre(InboundFields(config, tag).value["settings"].fields["clients"], users, tag == REALITY);
    ClientsAreAccounts(users, tag);
  }

  lemma NothingDesired(config: Json, tag: string)
    requires InboundFields(config, tag).None?
    ensures DesiredAccounts(config, tag) == None
  {
  }

  /** A rendered configuration's managed inbounds, and exactly the accounts given. */
  lemma RenderedInbounds(s: Settings, users: Rows, keys: RealityKeys, template: Json)
    requires Render(s, users, keys, template).Success?
    ensures var config := Render(s, users, keys, template).value;
            && InboundFields(config, REALITY).Some?
            && RenderedReality(InboundFields(config, REALITY).value, s, users, keys)
            && (InboundFields(config, WS_BACKEND).Some? <==> s.enableWsFallback)
            && (s.enableWsFallback ==> RenderedWs(InboundFields(config, WS_BACKEND).value, s, users))
            && forall tag | tag in MANAGED ::
                 DesiredAccounts(config, tag) == if tag in ManagedTags(s) then Some(AccountsOf(users, tag)) else None
  {
    hide Render, DesiredAccounts, AccountsOf, ListsClients, RenderedStream, InboundFields;
    var config := Render(s, users, keys, template).value;
    InboundsOfRendered(s, users, keys, template);
    DesiredIs(config, REALITY, users);
    if s.enableWsFallback {
      DesiredIs(config, WS_BACKEND, users);
    } else {
      NothingDesired(config, WS_BACKEND);
    }
  }

  lemma InboundsOfRendered(s: Settings, users: Rows, keys: RealityKeys, template: Json)
    requires Render(s, users, keys, template).Success?
    ensures var config := Render(s, users, keys, template).value;
            && InboundFields(config, REALITY).Some?
            && RenderedReality(InboundFields(config, REALITY).value, s, users, keys)
            && (InboundFields(config, WS_BACKEND).Some? <==> s.enableWsFallback)
            && (s.enableWsFallback ==> RenderedWs(InboundFields(config, WS_BACKEND).value, s, users))
  {
    var config := Render(s, users, keys, template).value;
    var c1 := RenderHeader(StripComments(template).fields, s).value;
    var items := c1["inbounds"].items;
    var c2 := RenderInbounds(c1, s, users, keys).value;
    assert config.fields["inbounds"] == c2["inbounds"];
    var r1 := RenderReality(items, s, users, keys).value;
    assert c2["inbounds"] == Arr(RenderWs(r1, s, users).value);
    hide Render, RenderReality, RenderInbounds, RenderWs, StripComments, RenderHeader, RenderRouting, RenderedReality,
      RenderedWs;
    RealityLists(items, s, users, keys);
    WsLists(r1, s, users);
  }

  /** What Xray holds right after loading a rendered configuration. */
  lemma LoadRendered(s: Settings, users: Rows, keys: RealityKeys, template: Json)
    requires Render(s, users, keys, template).Success?
    ensures Load(Render(s, users, keys, template).value).lists
            == map tag | tag in MANAGED && tag in ManagedTags(s) :: AccountsOf(users, tag)
  {
    hide Render, Skeleton, DesiredAccounts, InboundFields, AccountsOf, RenderedReality, RenderedWs;
    RenderedInbounds(s, users, keys, template);
  }
}
