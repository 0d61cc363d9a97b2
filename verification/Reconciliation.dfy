/**
 Account operations and expiry sweeps (app/service.py, app/expiry.py) over whole
 runs: the accounts Xray admits are the active rows of the table.
 */
module Reconciliation {
  import opened Prelude
  import opened Json
  import opened Accounts
  import opened Rendering
  import opened RenderingFacts
  import opened LiveXray
  import opened LiveSync
  import opened Pipeline
  import opened PipelineFacts

  /** What stays fixed while a container runs. */
  datatype Deployment = Deployment(settings: Settings, keys: RealityKeys, template: Json)

  /** `asOf` is the clock reading the last apply or sweep decided with. */
  datatype World = World(rows: Rows, nextId: nat, host: Host, asOf: int)

  datatype Step =
    /** An account operation at `at`; its sync reads the active list at `readAt`. */
    | Operate(change: Change, at: int, readAt: int, env: Env)
    | Resync(readAt: int, force: bool, env: Env)
    | Sweep(at: int, readAt: int, env: Env)
    | XrayExit
    | XrayStart

  /** A step's result; `applied` is the outcome of its apply, when it made one. */
  datatype Done = Done(world: World, applied: Option<Outcome>)

  function Rendered(d: Deployment, users: Rows): Result<Json, RenderError> {
    Render(d.settings, users, d.keys, d.template)
  }

  /** `service.sync` with the active list read at `readAt`. */
  function SyncWorld(w: World, d: Deployment, readAt: int, force: bool, accepts: Json -> bool, env: Env): Done {
    var r := Apply(w.host, Rendered(d, ActiveUsers(w.rows, readAt)), ManagedTags(d.settings), accepts,
        Options(force, true), env);
    Done(w.(host := r.host, asOf := readAt), Some(r.outcome))
  }

  function Do(w: World, s: Step, d: Deployment, accepts: Json -> bool): Done {
    match s
    case Operate(change, at, readAt, env) =>
      var m := Mutate(w.rows, w.nextId, change, at);
      if m.Failure? then Done(w, None)
      else
        var w1 := w.(rows := m.value, nextId := NextId(w.nextId, change, m));
        // `set_account_notes` reports success without applying anything.
        if change.EditUser? && change.edit.UpdateNotes? then Done(w1, None)
        else SyncWorld(w1, d, readAt, false, accepts, env)
    case Resync(readAt, force, env) =>
      SyncWorld(w, d, readAt, force, accepts, env)
    case Sweep(at, readAt, env) =>
      if LapsedUsers(w.rows, at) == [] then Done(w.(asOf := at), None)
      else SyncWorld(w.(rows := DisableExpired(w.rows, at)), d, readAt, false, accepts, env)
    case XrayExit => Done(w.(host := Next(w.host, XrayExits, accepts)), None)
    case XrayStart => Done(w.(host := Next(w.host, XrayStarts, accepts)), None)
  }

  /** The clock does not run backwards, the status probe is right, and an apply succeeded. */
  predicate Went(w: World, s: Step, d: Deployment, accepts: Json -> bool) {
    && (match s
        case Operate(_, at, readAt, env) => w.asOf <= at <= readAt && env.probe == w.host.live.Some?
        case Resync(readAt, _, env) => w.asOf <= readAt && env.probe == w.host.live.Some?
        case Sweep(at, readAt, env) => w.asOf <= at <= readAt && env.probe == w.host.live.Some?
        case _ => true)
    && var done := Do(w, s, d, accepts);
       done.applied.Some? ==> done.applied.value.Applied? && done.applied.value.ok
  }

  // ----- the invariant --------------------------------------------------------

  /** File and process list, per managed inbound, the rows active at `asOf`. */
  ghost predicate InSync(w: World, d: Deployment) {
    && Table(w.rows, w.nextId)
    && w.host.disk.Holds?
    && var config := w.host.disk.config;
       && Proper(config) && Covers(ManagedTags(d.settings), config)
       && (forall tag | tag in ManagedTags(d.settings) ::
             DesiredAccounts(config, tag) == Some(AccountsOf(ActiveUsers(w.rows, w.asOf), tag)))
       && (w.host.live.Some? ==> w.host.live.value == Load(config))
  }

  lemma InSyncConsistent(w: World, d: Deployment)
    requires InSync(w, d)
    ensures Consistent(w.host)
  {
    LoadSound(w.host.disk.config);
    hide Proper, Covers, Sound, Skeleton, DesiredAccounts;
  }

  lemma BlankTwice(ib: Json)
    ensures BlankInbound(BlankInbound(ib)) == BlankInbound(ib)
  {
    if ib.Obj? && "settings" in ib.fields && ib.fields["settings"].Obj? {
      var s := ib.fields["settings"].fields["clients" := Arr([])];
      assert s["clients" := Arr([])] == s;
      assert BlankInbound(ib).fields["settings" := Obj(s)] == BlankInbound(ib).fields;
    }
  }

  lemma FindBlank(items: seq<Json>, tag: string)
    ensures FindInbound(BlankInbounds(items), tag) == FindInbound(items, tag)
  {
    assert forall i | 0 <= i < |items| :: BlankInbounds(items)[i] == BlankInbound(items[i]);
    forall i | 0 <= i < |items| ensures BlankInbound(BlankInbound(items[i])) == BlankInbound(items[i]) {
      BlankTwice(items[i]);
    }
    FindAlike(BlankInbounds(items), items, tag);
  }

  lemma InboundsOfSkeleton(config: Json, tag: string)
    ensures InboundFields(Skeleton(config), tag).Some? <==> InboundFields(config, tag).Some?
  {
    if config.Obj? && "inbounds" in config.fields && config.fields["inbounds"].Arr? {
      FindBlank(config.fields["inbounds"].items, tag);
    }
  }

  lemma ProperWhen(config: Json, s: Settings, users: Rows)
    requires Signable(config)
    requires forall tag | tag in MANAGED :: InboundFields(Skeleton(config), tag).Some? <==> tag in ManagedTags(s)
    requires forall tag | tag in MANAGED ::
               DesiredAccounts(config, tag) == if tag in ManagedTags(s) then Some(AccountsOf(users, tag)) else None
    ensures Proper(config) && Covers(ManagedTags(s), config)
  {
    EmailsNonempty(users, REALITY);
    EmailsNonempty(users, WS_BACKEND);
    hide Skeleton, DesiredAccounts, InboundFields, AccountsOf, Signable;
  }

  lemma RenderedIsProper(d: Deployment, users: Rows)
    requires Rendered(d, users).Success? && Signable(Rendered(d, users).value)
    ensures Proper(Rendered(d, users).value) && Covers(ManagedTags(d.settings), Rendered(d, users).value)
    ensures forall tag | tag in ManagedTags(d.settings) ::
              DesiredAccounts(Rendered(d, users).value, tag) == Some(AccountsOf(users, tag))
  {
    hide Render, Skeleton, RenderedReality, RenderedWs, DesiredAccounts, InboundFields, AccountsOf, Signable, Proper,
      Covers;
    RenderedInbounds(d.settings, users, d.keys, d.template);
    var config := Rendered(d, users).value;
    InboundsOfSkeleton(config, REALITY);
    InboundsOfSkeleton(config, WS_BACKEND);
    ProperWhen(config, d.settings, users);
  }

  /** Xray refuses a configuration whose inbounds are not a list of objects. */
  ghost predicate ChecksShape(accepts: Json -> bool) {
    forall config :: accepts(config) ==> Signable(config)
  }

  /** A successful sync establishes the invariant from any consistent host. */
  lemma SyncEstablishes(w: World, d: Deployment, readAt: int, force: bool, accepts: Json -> bool, env: Env)
    requires Table(w.rows, w.nextId) && Consistent(w.host) && ChecksShape(accepts)
    requires env.probe == w.host.live.Some?
    requires var out := SyncWorld(w, d, readAt, force, accepts, env).applied.value; out.Applied? && out.ok
    ensures InSync(SyncWorld(w, d, readAt, force, accepts, env).world, d)
  {
    hide Proper, Covers, Rendered, Install, Load, DesiredAccounts, AccountsOf, ManagedTags, Consistent, Table;
    var users := ActiveUsers(w.rows, readAt);
    var rendered := Rendered(d, users);
    assert rendered.Success? && accepts(rendered.value);
    RenderedIsProper(d, users);
    ApplySucceeds(w.host, rendered.value, ManagedTags(d.settings), accepts, Options(force, true), env);
  }

  // ----- changes that do not reach Xray ---------------------------------------

  predicate SameCredentials(u: User, v: User) {
    && u.username == v.username && u.uuid == v.uuid && u.flow == v.flow
    && u.enabled == v.enabled && u.expiresAt == v.expiresAt
  }

  lemma {:induction false} SameActive(a: Rows, b: Rows, now: int)
    requires |a| == |b| && forall i | 0 <= i < |a| :: SameCredentials(a[i], b[i])
    ensures |ActiveUsers(a, now)| == |ActiveUsers(b, now)|
    ensures forall i | 0 <= i < |ActiveUsers(a, now)| :: SameCredentials(ActiveUsers(a, now)[i], ActiveUsers(b, now)[i])
  {
    if a != [] { SameActive(a[1..], b[1..], now); }
  }

  lemma {:induction false} SameAccounts(a: Rows, b: Rows, tag: string)
    requires |a| == |b| && forall i | 0 <= i < |a| :: SameCredentials(a[i], b[i])
    ensures AccountsOf(a, tag) == AccountsOf(b, tag)
  {
    if a != [] { SameAccounts(a[..|a| - 1], b[..|b| - 1], tag); }
  }

  lemma NotesKeepAccounts(rows: Rows, nextId: nat, change: Change, at: int, now: int, tag: string)
    requires change.EditUser? && change.edit.UpdateNotes? && Mutate(rows, nextId, change, at).Success?
    ensures AccountsOf(ActiveUsers(Mutate(rows, nextId, change, at).value, now), tag) ==
            AccountsOf(ActiveUsers(rows, now), tag)
  {
    var after := Mutate(rows, nextId, change, at).value;
    SameActive(after, rows, now);
    SameAccounts(ActiveUsers(after, now), ActiveUsers(rows, now), tag);
  }

  // ----- one step, and whole runs -----------------------------------------------

  lemma OperateKeepsInSync(
      w: World, change: Change, at: int, readAt: int, env: Env, d: Deployment, accepts: Json -> bool)
    requires InSync(w, d) && Went(w, Operate(change, at, readAt, env), d, accepts) && ChecksShape(accepts)
    ensures var done := Do(w, Operate(change, at, readAt, env), d, accepts).world;
            InSync(done, d) && w.asOf <= done.asOf
  {
    hide Proper, Covers, ChecksShape, Consistent, Apply, Mutate, Table, Load, AccountsOf, DesiredAccounts, ActiveUsers;
    InSyncConsistent(w, d);
    MutateKeepsTable(w.rows, w.nextId, change, at);
    var m := Mutate(w.rows, w.nextId, change, at);
    if m.Success? {
      if change.EditUser? && change.edit.UpdateNotes? {
        NotesKeepAccounts(w.rows, w.nextId, change, at, w.asOf, REALITY);
        NotesKeepAccounts(w.rows, w.nextId, change, at, w.asOf, WS_BACKEND);
      } else {
        hide InSync;
        SyncEstablishes(w.(rows := m.value, nextId := NextId(w.nextId, change, m)), d, readAt, false, accepts, env);
      }
    }
  }

  lemma SweepKeepsInSync(w: World, at: int, readAt: int, env: Env, d: Deployment, accepts: Json -> bool)
    requires InSync(w, d) && Went(w, Sweep(at, readAt, env), d, accepts) && ChecksShape(accepts)
    ensures var done := Do(w, Sweep(at, readAt, env), d, accepts).world; InSync(done, d) && w.asOf <= done.asOf
  {
    hide Proper, Covers, ChecksShape, Consistent, Apply, Table, Load, AccountsOf, DesiredAccounts, ActiveUsers,
      DisableExpired;
    InSyncConsistent(w, d);
    if LapsedUsers(w.rows, at) == [] {
      LapsedNone(w.rows, at);
      QuietSweep(w.rows, w.asOf, at);
    } else {
      DisableKeepsTable(w.rows, w.nextId, at);
      hide InSync;
      SyncEstablishes(w.(rows := DisableExpired(w.rows, at)), d, readAt, false, accepts, env);
    }
  }

  lemma StepKeepsInSync(w: World, s: Step, d: Deployment, accepts: Json -> bool)
    requires InSync(w, d) && Went(w, s, d, accepts) && ChecksShape(accepts)
    ensures InSync(Do(w, s, d, accepts).world, d)
    ensures w.asOf <= Do(w, s, d, accepts).world.asOf
  {
    hide Proper, Covers, ChecksShape, Consistent, Apply, Mutate, Table, Load, AccountsOf, DesiredAccounts, ActiveUsers;
    match s
    case Operate(change, at, readAt, env) =>
      hide InSync, Went, Do;
      OperateKeepsInSync(w, change, at, readAt, env, d, accepts);
    case Resync(readAt, force, env) =>
      InSyncConsistent(w, d);
      hide InSync;
      SyncEstablishes(w, d, readAt, force, accepts, env);
    case Sweep(at, readAt, env) =>
      hide InSync, Went, Do;
      SweepKeepsInSync(w, at, readAt, env, d, accepts);
    case _ =>
  }

  function Follow(w: World, run: seq<Step>, d: Deployment, accepts: Json -> bool): World {
    if run == [] then w else Do(Follow(w, run[..|run| - 1], d, accepts), run[|run| - 1], d, accepts).world
  }

  ghost predicate AllWent(w: World, run: seq<Step>, d: Deployment, accepts: Json -> bool) {
    forall k | 0 <= k < |run| :: Went(Follow(w, run[..k], d, accepts), run[k], d, accepts)
  }

  lemma {:induction false} RunKeepsInSync(w: World, run: seq<Step>, d: Deployment, accepts: Json -> bool)
    requires InSync(w, d) && AllWent(w, run, d, accepts) && ChecksShape(accepts)
    ensures InSync(Follow(w, run, d, accepts), d)
  {
    if run != [] {
      var n := |run| - 1;
      PrefixWent(w, run, d, accepts);
      RunKeepsInSync(w, run[..n], d, accepts);
      var before := Follow(w, run[..n], d, accepts);
      assert Went(before, run[n], d, accepts);
      StepKeepsInSync(before, run[n], d, accepts);
      assert Follow(w, run, d, accepts) == Do(before, run[n], d, accepts).world;
      hide Went, InSync, ChecksShape, Do;
    }
  }

  lemma PrefixWent(w: World, run: seq<Step>, d: Deployment, accepts: Json -> bool)
    requires run != [] && AllWent(w, run, d, accepts)
    ensures AllWent(w, run[..|run| - 1], d, accepts)
  {
    hide Went, Follow;
    var n := |run| - 1;
    forall k | 0 <= k < n ensures Went(Follow(w, run[..n][..k], d, accepts), run[..n][k], d, accepts) {
      assert run[..n][..k] == run[..k];
    }
  }

  /** The clock reading a sweep decides with: its second one only if it applies. */
  function ReadingOf(w: World, s: Step): int
    requires s.Sweep?
  {
    if LapsedUsers(w.rows, s.at) == [] then s.at else s.readAt
  }

  /** Exactly the rows active at `now` may log in through `tag`, each with its own credentials. */
  ghost predicate AdmitsExactly(list: AccountList, rows: Rows, now: int, tag: string) {
    && (forall e :: e in list <==> exists u :: u in rows && u.IsActive(now) && u.username + "@railgate" == e)
    && forall u | u in rows && u.IsActive(now) ::
         u.username + "@railgate" in list && Belongs(list[u.username + "@railgate"], u, tag)
  }

  lemma ActiveListAdmits(rows: Rows, now: int, tag: string)
    requires Distinct(rows)
    ensures AdmitsExactly(AccountsOf(ActiveUsers(rows, now), tag), rows, now, tag)
  {
    hide Belongs, AccountsOf;
    var active := ActiveUsers(rows, now);
    var list := AccountsOf(active, tag);
    ActiveDistinct(rows, now);
    AccountsExactly(active, tag);
    forall u | u in rows && u.IsActive(now)
      ensures u.username + "@railgate" in list && Belongs(list[u.username + "@railgate"], u, tag)
    {
      ActiveMembers(rows, now, u);
      var i :| 0 <= i < |active| && active[i] == u;
      assert Belongs(list[active[i].username + "@railgate"], active[i], tag);
    }
    forall e | e in list ensures exists u :: u in rows && u.IsActive(now) && u.username + "@railgate" == e {
      var i :| 0 <= i < |active| && active[i].username + "@railgate" == e;
      ActiveMembers(rows, now, active[i]);
    }
  }

  /**
   After every run of operations, sweeps and Xray restarts that ends with a
   sweep, and whether or not that sweep found anything to apply, the running
   Xray admits exactly the accounts active at the reading the sweep used.
   */
  lemma SweepLeavesExactlyTheActive(w: World, run: seq<Step>, d: Deployment, accepts: Json -> bool)
    requires InSync(w, d) && AllWent(w, run, d, accepts) && ChecksShape(accepts)
    requires run != [] && run[|run| - 1].Sweep?
    ensures var before := Follow(w, run[..|run| - 1], d, accepts);
            var after := Follow(w, run, d, accepts);
            var reading := ReadingOf(before, run[|run| - 1]);
            after.host.live.Some? ==>
              && REALITY in after.host.live.value.lists
              && AdmitsExactly(after.host.live.value.lists[REALITY], after.rows, reading, REALITY)
              && (d.settings.enableWsFallback ==>
                    && WS_BACKEND in after.host.live.value.lists
                    && AdmitsExactly(after.host.live.value.lists[WS_BACKEND], after.rows, reading, WS_BACKEND))
  {
    hide Proper, Covers, DesiredAccounts, Apply, AdmitsExactly, AllWent, ChecksShape;
    RunKeepsInSync(w, run, d, accepts);
    var after := Follow(w, run, d, accepts);
    ActiveListAdmits(after.rows, after.asOf, REALITY);
    ActiveListAdmits(after.rows, after.asOf, WS_BACKEND);
  }

  /** The first successful apply after a boot, with no Xray yet, starts such a run. */
  lemma BootEstablishes(w: World, d: Deployment, readAt: int, accepts: Json -> bool, env: Env)
    requires Table(w.rows, w.nextId) && ChecksShape(accepts)
    requires w.host.live.None? && (w.host.disk.Holds? ==> Proper(w.host.disk.config))
    requires Went(w, Resync(readAt, false, env), d, accepts)
    ensures InSync(Do(w, Resync(readAt, false, env), d, accepts).world, d)
  {
    hide Proper, Apply, ChecksShape;
    SyncEstablishes(w, d, readAt, false, accepts, env);
  }
}
