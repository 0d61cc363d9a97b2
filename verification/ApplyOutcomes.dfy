/**
 How one apply ends, in terms of what Xray, the files and the caller do: when the
 accounts are exchanged through the live API and nobody is disconnected, when Xray
 is restarted, and when neither happens.
 */
module ApplyOutcomes {
  import opened Prelude
  import opened Json
  import opened Rendering
  import opened LiveXray
  import opened LiveSync
  import opened Pipeline
  import opened PipelineFacts
  import opened Accounts
  import opened RenderingFacts
  import opened Reconciliation

  /** The API lists the inbound, removes each account that changed or went, and adds each new one, counting both. */
  ghost predicate DoesItsPart(m: AccountList, desired: AccountList, r: TagReply) {
    && r.answered
    && (forall e | e in m && (e !in desired || m[e] != desired[e]) :: e in r.removal.acted && r.removal.counted)
    && forall e | e in desired && (e !in m || m[e] != desired[e]) :: e in r.addition.acted && r.addition.counted
  }

  lemma PartIsDoneIff(m: AccountList, desired: AccountList, r: TagReply)
    requires "" !in m
    ensures SyncTag(m, desired, r).ok <==> DoesItsPart(m, desired, r)
  {
    SyncTagSucceedsIff(m, desired, r);
    hide SyncTag;
    assert forall e :: e in Stale(m, desired) <==> e in m && (e !in desired || m[e] != desired[e]);
    assert forall e :: e in Additions(m, desired) <==> e in desired && (e !in m || m[e] != desired[e]);
    hide Stale, Additions;
    if DoesItsPart(m, desired, r) {
      if e :| e in Stale(m, desired) { assert r.removal.counted; }
      if e :| e in Additions(m, desired) { assert r.addition.counted; }
    }
  }

  /** It does so on every handled inbound. */
  ghost predicate ApiWorks(live: Live, config: Json, tags: seq<string>, r: Replies) {
    forall tag | tag in tags && DesiredAccounts(config, tag).Some? ::
      tag in live.lists && DoesItsPart(live.lists[tag], DesiredAccounts(config, tag).value, r.For(tag))
  }

  lemma {:induction false} SyncSucceedsIff(live: Live, config: Json, tags: seq<string>, r: Replies)
    requires Unique(tags) && forall tag | tag in tags && tag in live.lists :: "" !in live.lists[tag]
    ensures SyncTags(live, config, tags, r).ok <==> ApiWorks(live, config, tags, r)
    decreases |tags|
  {
    hide SyncTag, DesiredAccounts, DoesItsPart;
    if tags != [] {
      var tag, rest := tags[0], tags[1..];
      assert tag !in rest && forall t :: t in tags <==> t == tag || t in rest;
      match DesiredAccounts(config, tag)
      case None => SyncSucceedsIff(live, config, rest, r);
      case Some(desired) =>
        if tag in live.lists {
          PartIsDoneIff(live.lists[tag], desired, r.For(tag));
          var end := live.(lists := live.lists[tag := SyncTag(live.lists[tag], desired, r.For(tag)).after]);
          SyncSucceedsIff(end, config, rest, r);
          assert forall t | t in rest ::
              (t in end.lists <==> t in live.lists) && (t in end.lists ==> end.lists[t] == live.lists[t]);
        }
    }
  }

  // ----- the decision table -----------------------------------------------------------------

  /** The new file is in place and noted. */
  predicate Replaced(config: Json, accepts: Json -> bool, env: Env) {
    accepts(config) && env.write.replaced && env.recorded
  }

  /** The configuration differs from the file in its client lists alone. */
  ghost predicate OnlyAccountsChange(h: Host, config: Json) {
    h.disk.Holds? && SameStructure(h.disk.config, config)
  }

  /** The accounts can be exchanged in the running Xray, and are. */
  ghost predicate ExchangesAccounts(h: Host, config: Json, tags: seq<string>, o: Options, env: Env) {
    && OnlyAccountsChange(h, config) && !o.force
    && h.live.Some? && ApiWorks(h.live.value, config, tags, env.replies)
  }

  lemma OnlyAccountsIff(h: Host, config: Json)
    requires Consistent(h) && Proper(config)
    ensures OnlyAccountsChange(h, config) <==> !Structural(Previous(h.disk), config)
    ensures Previous(h.disk).Some? ==> Signable(Previous(h.disk).value) && Signable(config)
  {
    ProperIsSignable(config);
    if h.disk.Holds? {
      ProperIsSignable(h.disk.config);
      SkeletonMeansSameStructure(h.disk.config, config);
    }
    hide Proper, Sound, Skeleton, SameStructure, Signable;
  }

  lemma SyncHostIff(h: Host, config: Json, tags: seq<string>, r: Replies)
    requires h.live.Some? ==> Sound(h.live.value)
    requires Covers(tags, config)
    ensures SyncHost(h, config, tags, r).ok <==> h.live.Some? && ApiWorks(h.live.value, config, tags, r)
    ensures SyncHost(h, config, tags, r).host.disk == h.disk && SyncHost(h, config, tags, r).host.boots == h.boots
    ensures var y := SyncHost(h, config, tags, r);
            forall k | 0 <= k < |y.moments| :: y.moments[k].live.Some? == h.live.Some? && y.moments[k].boots == h.boots
  {
    hide Sound, SyncTags, ApiWorks;
    if h.live.Some? {
      SoundNoBlank(h.live.value);
      BlankFree(h.live.value.lists, tags);
      SyncSucceedsIff(h.live.value, config, tags, r);
    } else {
      NoLiveNoSync(h, config, tags, r);
    }
  }

  lemma RestartEnds(h: Host, previous: Option<Json>, structural: bool, env: Env)
    requires h.disk.Holds?
    ensures RestartOrRollBack(h, previous, structural, env).outcome ==
            if env.restart.Healthy? then Applied(true, Method.Restart, true, false, structural)
            else if previous.None? then Applied(false, Method.Restart, true, false, structural)
            else if env.undo.replaced then Applied(false, Rollback, true, true, structural)
            else Raised
  {
    hide Load;
  }

  lemma ActivateEnds(h: Host, config: Json, tags: seq<string>, previous: Option<Json>, o: Options, env: Env)
    requires h.disk.Holds? && Covers(tags, config) && (h.live.Some? ==> Sound(h.live.value))
    ensures var structural := Structural(previous, config);
            var byApi := !structural && !o.force;
            Activate(h, config, tags, previous, structural, o, env).outcome ==
            if !env.probe then Applied(true, Written, false, false, structural)
            else if byApi && h.live.Some? && ApiWorks(h.live.value, config, tags, env.replies) then
              Applied(true, Api, false, false, false)
            else if !o.allow then Applied(false, if byApi then Api else Deferred, false, false, structural)
            else RestartOrRollBack(h, previous, structural, env).outcome
  {
    hide Covers, Sound, SyncHost, ApiWorks, Structural, RestartOrRollBack;
    SyncHostIff(h, config, tags, env.replies);
    RestartEnds(h, previous, Structural(previous, config), env);
    RestartEnds(SyncHost(h, config, tags, env.replies).host, previous, Structural(previous, config), env);
  }

  /**
   Every way an apply can end, each with exactly the circumstances that lead to it.
   The live API is used, and Xray not restarted, exactly when only accounts change,
   no restart is forced and the API does its part.
   */
  lemma ApplyEndsIff(h: Host, config: Json, tags: seq<string>, accepts: Json -> bool, o: Options, env: Env)
    requires Consistent(h) && Proper(config) && Covers(tags, config)
    ensures var end := Apply(h, Success(config), tags, accepts, o, env).outcome;
            var replaced, structural := Replaced(config, accepts, env), !OnlyAccountsChange(h, config);
            var exchanged := ExchangesAccounts(h, config, tags, o, env);
            var restarts := replaced && env.probe && !exchanged && o.allow;
            && (end == Applied(false, Validate, false, false, false) <==> !accepts(config))
            && (end == Applied(true, Written, false, false, structural) <==> replaced && !env.probe)
            && (end == Applied(true, Api, false, false, false) <==> replaced && env.probe && exchanged)
            && (end == Applied(false, Api, false, false, false) <==>
                  replaced && env.probe && !exchanged && !o.allow && !structural && !o.force)
            && (end == Applied(false, Deferred, false, false, structural) <==>
                  replaced && env.probe && !o.allow && (structural || o.force))
            && (end == Applied(true, Method.Restart, true, false, structural) <==> restarts && env.restart.Healthy?)
            && (end == Applied(false, Method.Restart, true, false, structural) <==>
                  restarts && !env.restart.Healthy? && !h.disk.Holds?)
            && (end == Applied(false, Rollback, true, true, structural) <==>
                  restarts && !env.restart.Healthy? && h.disk.Holds? && env.undo.replaced)
            && (end == Raised <==>
                  || (accepts(config) && !replaced)
                  || (restarts && !env.restart.Healthy? && h.disk.Holds? && !env.undo.replaced))
  {
    hide Consistent, Proper, Covers, Sound, Activate, OnlyAccountsChange, Structural, ApiWorks, Signable,
      RestartOrRollBack;
    OnlyAccountsIff(h, config);
    ConsistentLive(h);
    var w := WriteConfig(h, config, env.write).host;
    if Replaced(config, accepts, env) {
      ActivateEnds(w, config, tags, Previous(h.disk), o, env);
      RestartEnds(w, Previous(h.disk), Structural(Previous(h.disk), config), env);
    }
  }

  lemma ConsistentLive(h: Host)
    requires Consistent(h)
    ensures h.live.Some? ==> Sound(h.live.value) && h.disk.Holds?
  {
    hide Proper, Sound, Skeleton;
  }

  /** Inbounds that are no list of objects have no signature: the call raises before anything is written. */
  lemma WithoutSignatureRaises(
      h: Host, config: Json, tags: seq<string>, accepts: Json -> bool, o: Options, env: Env)
    requires h.disk.Holds? && accepts(config)
    requires !Signable(h.disk.config) || !Signable(config)
    ensures Apply(h, Success(config), tags, accepts, o, env) == Run(h, Raised, [])
  {
    hide Signable, Structural;
  }

  /** A failed validation, or a template that cannot be rendered, touches nothing. */
  lemma RefusedTouchesNothing(
      h: Host, rendered: Result<Json, RenderError>, tags: seq<string>, accepts: Json -> bool, o: Options, env: Env)
    requires rendered.Failure? || !accepts(rendered.value)
    ensures var r := Apply(h, rendered, tags, accepts, o, env);
            && r.host == h && r.moments == []
            && (r.outcome.Applied? ==> !r.outcome.ok) && (r.outcome.Raised? <==> rendered.Failure?)
  {
  }

  /** A forced restart never goes through the API. */
  lemma ForceNeverExchanges(h: Host, config: Json, tags: seq<string>, accepts: Json -> bool, env: Env, allow: bool)
    ensures var end := Apply(h, Success(config), tags, accepts, Options(true, allow), env).outcome;
            end.Applied? ==> !end.via.Api?
  {
    hide SyncHost, WriteConfig, Signable, Structural, RestartXray;
  }

  /**
   When the accounts are exchanged nobody else notices: Xray runs at every moment,
   it is the same process, and it ends with what the new file would load.
   */
  lemma ExchangeDisconnectsNobody(
      h: Host, config: Json, tags: seq<string>, accepts: Json -> bool, o: Options, env: Env)
    requires Consistent(h) && Proper(config) && Covers(tags, config)
    requires Replaced(config, accepts, env) && env.probe && ExchangesAccounts(h, config, tags, o, env)
    ensures var r := Apply(h, Success(config), tags, accepts, o, env);
            && r.outcome == Applied(true, Api, false, false, false)
            && r.host.disk == Holds(config) && r.host.live == Some(Load(config)) && r.host.boots == h.boots
            && forall k | 0 <= k < |r.moments| :: r.moments[k].live.Some? && r.moments[k].boots == h.boots
  {
    hide Consistent, Proper, Covers, Sound, OnlyAccountsChange, Structural, ApiWorks, Signable, Load, SyncHost,
      RestartOrRollBack;
    ApplyEndsIff(h, config, tags, accepts, o, env);
    ApplySucceeds(h, config, tags, accepts, o, env);
    OnlyAccountsIff(h, config);
    ConsistentLive(h);
    SyncHostIff(WriteConfig(h, config, env.write).host, config, tags, env.replies);
  }

  // ----- accounts alone never restart Xray ------------------------------------------------

  /**
   Whatever two lists of accounts one deployment renders, going from the one to the
   other while Xray runs is done through the API, without a restart, whenever the
   API does its part and the file is replaced.
   */
  lemma AccountsNeedNoRestart(
      h: Host, d: Deployment, before: Rows, after: Rows, accepts: Json -> bool, allow: bool, env: Env)
    requires Rendered(d, before).Success? && Rendered(d, after).Success? && ChecksShape(accepts)
    requires Signable(Rendered(d, before).value) && h.disk == Holds(Rendered(d, before).value)
    requires h.live == Some(Load(Rendered(d, before).value))
    requires Replaced(Rendered(d, after).value, accepts, env) && env.probe
    requires ApiWorks(h.live.value, Rendered(d, after).value, ManagedTags(d.settings), env.replies)
    ensures var config, tags := Rendered(d, after).value, ManagedTags(d.settings);
            var r := Apply(h, Success(config), tags, accepts, Options(false, allow), env);
            && r.outcome == Applied(true, Api, false, false, false)
            && r.host.live == Some(Load(config)) && r.host.boots == h.boots
            && forall k | 0 <= k < |r.moments| :: r.moments[k].live.Some? && r.moments[k].boots == h.boots
  {
    hide Render, Proper, Covers, Sound, Load, ApiWorks, Signable, Apply, SameStructure, Skeleton, Signature,
      DesiredAccounts;
    var former, config := Rendered(d, before).value, Rendered(d, after).value;
    RenderedIsProper(d, before);
    RenderedIsProper(d, after);
    LoadSound(former);
    LoadSkeleton(former);
    RenderStructure(d.settings, d.keys, d.template, before, after);
    SignatureMeansSameStructure(former, config);
    ExchangeDisconnectsNobody(h, config, ManagedTags(d.settings), accepts, Options(false, allow), env);
  }

  /** Files that can be written, a status that is right, and an Xray that starts when asked. */
  predicate Cooperates(h: Host, env: Env) {
    env.write.replaced && env.recorded && env.probe == h.live.Some? && env.restart.Healthy?
  }

  lemma CooperationSucceeds(
      h: Host, config: Json, tags: seq<string>, accepts: Json -> bool, force: bool, env: Env)
    requires Consistent(h) && Proper(config) && Covers(tags, config) && accepts(config) && Cooperates(h, env)
    ensures var end := Apply(h, Success(config), tags, accepts, Options(force, true), env).outcome;
            end.Applied? && end.ok
  {
    hide Consistent, Proper, Covers, Apply, OnlyAccountsChange, ExchangesAccounts;
    ApplyEndsIff(h, config, tags, accepts, Options(force, true), env);
  }

  /** The clock does not run backwards, and if anything is applied the host cooperates. */
  ghost predicate Unhindered(w: World, s: Step) {
    match s
    case Operate(_, at, readAt, env) => w.asOf <= at <= readAt && Cooperates(w.host, env)
    case Resync(readAt, _, env) => w.asOf <= readAt && Cooperates(w.host, env)
    case Sweep(at, readAt, env) => w.asOf <= at <= readAt && Cooperates(w.host, env)
    case _ => true
  }

  /** Whatever list of accounts is rendered, Xray accepts it. */
  ghost predicate AlwaysAccepted(d: Deployment, accepts: Json -> bool) {
    forall users: Rows :: Rendered(d, users).Success? && accepts(Rendered(d, users).value)
  }

  /**
   With a host that cooperates every account operation, sweep and resync succeeds,
   also when the live API does nothing at all: then by a restart.
   */
  lemma UnhinderedSucceeds(w: World, s: Step, d: Deployment, accepts: Json -> bool)
    requires InSync(w, d) && ChecksShape(accepts) && AlwaysAccepted(d, accepts) && Unhindered(w, s)
    ensures Went(w, s, d, accepts)
  {
    hide InSync, Consistent, Proper, Covers, Apply, Mutate, Rendered;
    InSyncConsistent(w, d);
    match s
    case Operate(change, at, readAt, env) =>
      var m := Mutate(w.rows, w.nextId, change, at);
      if m.Success? { AcceptedSucceeds(w, d, ActiveUsers(m.value, readAt), accepts, false, env); }
    case Resync(readAt, force, env) => AcceptedSucceeds(w, d, ActiveUsers(w.rows, readAt), accepts, force, env);
    case Sweep(at, readAt, env) =>
      AcceptedSucceeds(w, d, ActiveUsers(DisableExpired(w.rows, at), readAt), accepts, false, env);
    case _ =>
  }

  lemma AcceptedSucceeds(w: World, d: Deployment, users: Rows, accepts: Json -> bool, force: bool, env: Env)
    requires Consistent(w.host) && ChecksShape(accepts) && AlwaysAccepted(d, accepts) && Cooperates(w.host, env)
    ensures var r := Apply(w.host, Rendered(d, users), ManagedTags(d.settings), accepts, Options(force, true), env);
            r.outcome.Applied? && r.outcome.ok && env.probe == w.host.live.Some?
  {
    hide Consistent, Proper, Covers, Apply, Render;
    assert Rendered(d, users).Success? && accepts(Rendered(d, users).value);
    RenderedIsProper(d, users);
    CooperationSucceeds(w.host, Rendered(d, users).value, ManagedTags(d.settings), accepts, force, env);
  }
}
