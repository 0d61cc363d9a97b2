/**
 The apply pipeline (app/xray_manager.py, `apply_configuration`): render,
 validate, replace the file, then reach the running Xray through its API or a
 restart, or roll back. Every function returns all host states it goes through.
 */
module Pipeline {
  import opened Prelude
  import opened Json
  import opened Rendering
  import opened LiveXray
  import opened LiveSync

  /** `Unreadable` is a file that exists but does not parse as JSON. */
  datatype File = Missing | Unreadable | Holds(config: Json)

  /** `boots` counts how often an Xray process has loaded a configuration. */
  datatype Host = Host(disk: File, backup: File, live: Option<Live>, boots: nat)

  datatype Method = Validate | Written | Api | Deferred | Restart | Rollback

  datatype Outcome =
    | Raised
    | Applied(ok: bool, via: Method, restarted: bool, rolledBack: bool, structural: bool)

  datatype Options = Options(force: bool, allow: bool)

  // ----- the environment's choices -----------------------------------------

  /**
   One `write_config_atomic`: does the backup copy succeed (if not, the swallowed
   error leaves `leftover` there), and does the replacement succeed (if not, it raises).
   */
  datatype WriteIo = WriteIo(copied: bool, leftover: File, replaced: bool)

  /**
   One restart request: refused with the process untouched; the old process gone
   and none in its place; a new process that never opens its port; or success.
   */
  datatype RestartReply = Refused | Vanished | Unhealthy | Healthy

  /** `recorded`: the settings row is written. `probe`: the status says "running". */
  datatype Env = Env(
    write: WriteIo, recorded: bool, probe: bool, replies: Replies,
    restart: RestartReply, undo: WriteIo, secondRestart: RestartReply)

  // ----- steps --------------------------------------------------------------

  datatype StepResult = StepResult(ok: bool, host: Host, moments: seq<Host>)

  function WriteConfig(h: Host, config: Json, io: WriteIo): StepResult {
    var torn := h.(backup := io.leftover);
    var copied := h.(backup := if io.copied then h.disk else io.leftover);
    var backup := if h.disk.Missing? then [h] else [torn, copied];
    var h1 := if h.disk.Missing? then h else copied;
    if io.replaced then StepResult(true, h1.(disk := Holds(config)), backup + [h1.(disk := Holds(config))])
    else StepResult(false, h1, backup)
  }

  /** A process that starts loads whatever the active path holds. */
  function Boot(h: Host): Host {
    if h.disk.Holds? then h.(live := Some(Load(h.disk.config)), boots := h.boots + 1) else h.(live := None)
  }

  function RestartXray(h: Host, reply: RestartReply): StepResult {
    match reply
    case Refused => StepResult(false, h, [h])
    case Vanished => StepResult(false, h.(live := None), [h.(live := None)])
    case Unhealthy => StepResult(false, Boot(h), [h.(live := None), Boot(h)])
    case Healthy => StepResult(Boot(h).live.Some?, Boot(h), [h.(live := None), Boot(h)])
  }

  function SyncHost(h: Host, config: Json, tags: seq<string>, r: Replies): StepResult {
    match h.live
    case None => StepResult(forall tag | tag in tags :: DesiredAccounts(config, tag).None?, h, [h])
    case Some(live) =>
      var res := SyncTags(live, config, tags, r);
      StepResult(res.ok, h.(live := Some(res.live)),
                 seq(|res.moments|, i requires 0 <= i < |res.moments| => h.(live := Some(res.moments[i]))))
  }

  datatype Run = Run(host: Host, outcome: Outcome, moments: seq<Host>)

  function Before(moments: seq<Host>, r: Run): Run {
    r.(moments := moments + r.moments)
  }

  function RestartOrRollBack(h: Host, previous: Option<Json>, structural: bool, env: Env): Run {
    var r := RestartXray(h, env.restart);
    if r.ok then Run(r.host, Applied(true, Restart, true, false, structural), r.moments)
    else if previous.None? then Run(r.host, Applied(false, Restart, true, false, structural), r.moments)
    else
      var w := WriteConfig(r.host, previous.value, env.undo);
      if !w.ok then Run(w.host, Raised, r.moments + w.moments)
      else
        var r2 := RestartXray(w.host, env.secondRestart);
        Run(r2.host, Applied(false, Rollback, true, true, structural), r.moments + w.moments + r2.moments)
  }

  function Activate(
      h: Host, config: Json, tags: seq<string>, previous: Option<Json>, structural: bool, o: Options, env: Env): Run
  {
    if !env.probe then Run(h, Applied(true, Written, false, false, structural), [])
    else if !structural && !o.force then
      var y := SyncHost(h, config, tags, env.replies);
      if y.ok then Run(y.host, Applied(true, Api, false, false, false), y.moments)
      else if !o.allow then Run(y.host, Applied(false, Api, false, false, false), y.moments)
      else Before(y.moments, RestartOrRollBack(y.host, previous, structural, env))
    else if !o.allow then Run(h, Applied(false, Deferred, false, false, structural), [])
    else RestartOrRollBack(h, previous, structural, env)
  }

  function Previous(disk: File): Option<Json> {
    if disk.Holds? then Some(disk.config) else None
  }

  predicate Structural(previous: Option<Json>, config: Json) {
    previous.None? || Skeleton(previous.value) != Skeleton(config)
  }

  function Install(h: Host, config: Json, tags: seq<string>, o: Options, env: Env): Run {
    var previous := Previous(h.disk);
    if previous.Some? && !(Signable(previous.value) && Signable(config)) then Run(h, Raised, [])
    else
      var w := WriteConfig(h, config, env.write);
      if !w.ok || !env.recorded then Run(w.host, Raised, w.moments)
      else Before(w.moments, Activate(w.host, config, tags, previous, Structural(previous, config), o, env))
  }

  /** `accepts` is the verdict of `xray run -test`. */
  function Apply(
      h: Host, rendered: Result<Json, RenderError>, tags: seq<string>, accepts: Json -> bool, o: Options,
      env: Env): Run
  {
    match rendered
    case Failure(_) => Run(h, Raised, [])
    case Success(config) =>
      if !accepts(config) then Run(h, Applied(false, Validate, false, false, false), [])
      else Install(h, config, tags, o, env)
  }

  // ----- what a rendered configuration is good for --------------------------

  /** Its managed inbounds have client lists with non-empty e-mails. */
  ghost predicate Proper(config: Json) {
    && Signable(config)
    && forall tag | tag in MANAGED ::
         && (DesiredAccounts(config, tag).Some? <==> InboundFields(Skeleton(config), tag).Some?)
         && (DesiredAccounts(config, tag).Some? ==> "" !in DesiredAccounts(config, tag).value)
  }

  /** `tags` are exactly the managed inbounds `config` has. */
  ghost predicate Covers(tags: seq<string>, config: Json) {
    && Unique(tags) && tags != []
    && (forall tag | tag in tags :: tag in MANAGED)
    && forall tag | tag in MANAGED :: DesiredAccounts(config, tag).Some? <==> tag in tags
  }

  /** The live process came from a configuration of the structure on disk. */
  ghost predicate Consistent(h: Host) {
    && (h.disk.Holds? ==> Proper(h.disk.config))
    && (h.live.Some? ==>
          && h.disk.Holds?
          && h.live.value.skeleton == Skeleton(h.disk.config)
          && Sound(h.live.value))
  }

  ghost predicate Sound(live: Live) {
    && (forall tag :: tag in live.lists <==> tag in MANAGED && InboundFields(live.skeleton, tag).Some?)
    && forall tag | tag in live.lists :: "" !in live.lists[tag]
  }

  lemma LoadSound(config: Json)
    requires Proper(config)
    ensures Sound(Load(config))
  {
    hide DesiredAccounts, InboundFields, Skeleton;
  }

  lemma LoadSkeleton(config: Json)
    ensures Load(config).skeleton == Skeleton(config)
  {
  }

  // ----- success ------------------------------------------------------------

  lemma CoveredNoBlank(config: Json, tags: seq<string>)
    requires Proper(config) && Covers(tags, config)
    ensures forall tag | tag in tags && DesiredAccounts(config, tag).Some? :: "" !in DesiredAccounts(config, tag).value
  {
    hide Signable, DesiredAccounts, InboundFields, Skeleton;
  }

  lemma SoundNoBlank(live: Live)
    requires Sound(live)
    ensures NoBlank(live.lists)
  {
    hide InboundFields;
  }

  lemma StillSound(before: Live, after: Live)
    requires Sound(before) && after.skeleton == before.skeleton && after.lists.Keys == before.lists.Keys
    requires NoBlank(after.lists)
    ensures Sound(after)
  {
    hide InboundFields;
    assert forall tag :: tag in after.lists <==> tag in before.lists;
  }

  /** Lists equal to the desired ones under every managed tag are the loaded ones. */
  lemma ListsAreLoaded(live: Live, config: Json, tags: seq<string>)
    requires Sound(live) && live.skeleton == Skeleton(config) && Proper(config) && Covers(tags, config)
    requires forall tag | tag in tags && DesiredAccounts(config, tag).Some? ::
               tag in live.lists && live.lists[tag] == DesiredAccounts(config, tag).value
    ensures live == Load(config)
  {
    hide Signable, DesiredAccounts, InboundFields, Skeleton;
    assert live.lists == Load(config).lists;
  }

  lemma SyncHostIs(h: Host, config: Json, tags: seq<string>, r: Replies)
    requires h.live.Some?
    ensures var res, y := SyncTags(h.live.value, config, tags, r), SyncHost(h, config, tags, r);
            y.ok == res.ok && y.host == h.(live := Some(res.live))
  {
    hide SyncTags;
  }

  lemma SyncOnHost(h: Host, config: Json, tags: seq<string>, r: Replies)
    requires h.live.Some? && Sound(h.live.value) && Proper(config) && Covers(tags, config)
    requires h.live.value.skeleton == Skeleton(config)
    ensures var y := SyncHost(h, config, tags, r);
            && y.host == h.(live := y.host.live) && y.host.live.Some?
            && y.host.live.value.skeleton == h.live.value.skeleton
            && Sound(y.host.live.value)
            && (y.ok ==> y.host.live == Some(Load(config)))
  {
    hide Sound, NoBlank, Proper, Load, SyncTags, SyncHost, DesiredAccounts, Skeleton;
    var live := h.live.value;
    SyncHostIs(h, config, tags, r);
    CoveredNoBlank(config, tags);
    SoundNoBlank(live);
    SyncMomentsKeepShape(live, config, tags, r);
    var res := SyncTags(live, config, tags, r);
    StillSound(live, res.live);
    if res.ok {
      BlankFree(live.lists, tags);
      SyncReconciles(live, config, tags, r);
      ListsAreLoaded(res.live, config, tags);
    }
  }

  lemma BlankFree(lists: map<string, AccountList>, tags: seq<string>)
    requires NoBlank(lists)
    ensures forall tag | tag in lists && tag in tags :: "" !in lists[tag]
  {
  }

  lemma RestartSucceeds(h: Host, previous: Option<Json>, structural: bool, env: Env)
    requires h.disk.Holds?
    ensures var r := RestartOrRollBack(h, previous, structural, env);
            r.outcome.Applied? && r.outcome.ok ==>
              && r.outcome.via.Restart? && r.outcome.restarted && r.host.disk == h.disk
              && r.host.live == Some(Load(h.disk.config)) && r.host.boots == h.boots + 1
  {
    hide Load, WriteConfig;
  }

  /** `ok` by "api" or "restart": the file and the process both are the rendered configuration. */
  lemma ApplySucceeds(h: Host, config: Json, tags: seq<string>, accepts: Json -> bool, o: Options, env: Env)
    requires Consistent(h) && Proper(config) && Covers(tags, config)
    ensures var r := Apply(h, Success(config), tags, accepts, o, env);
            r.outcome.Applied? && r.outcome.ok ==>
              && accepts(config)
              && r.host.disk == Holds(config)
              && (r.outcome.via.Written? ==> r.host.live == h.live && r.host.boots == h.boots && !env.probe)
              && (!r.outcome.via.Written? ==> r.host.live == Some(Load(config)))
              && (r.outcome.via.Api? ==> r.host.boots == h.boots && !r.outcome.restarted)
              && (r.outcome.via.Restart? ==> r.host.boots == h.boots + 1 && r.outcome.restarted)
              && r.outcome.via in {Written, Api, Restart}
  {
    hide Proper, Covers, Sound, Load, Skeleton, Signable, RestartOrRollBack;
    if accepts(config) {
      var w, structural := WriteConfig(h, config, env.write), Structural(Previous(h.disk), config);
      if w.ok {
        RestartSucceeds(w.host, Previous(h.disk), structural, env);
        RestartSucceeds(SyncHost(w.host, config, tags, env.replies).host, Previous(h.disk), structural, env);
      }
      if w.ok && env.recorded && env.probe && !Structural(Previous(h.disk), config) && !o.force && h.live.Some? {
        SyncOnHost(w.host, config, tags, env.replies);
      }
      if h.live.None? { NoLiveNoSync(w.host, config, tags, env.replies); }
      hide SyncHost;
    }
  }

  lemma NoLiveNoSync(h: Host, config: Json, tags: seq<string>, r: Replies)
    requires h.live.None? && Covers(tags, config)
    ensures SyncHost(h, config, tags, r).host == h && !SyncHost(h, config, tags, r).ok
  {
    assert tags[0] in tags;
  }
}
