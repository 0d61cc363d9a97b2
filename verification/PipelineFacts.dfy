/** What `apply_configuration` keeps, in one call and over whole runs. */
module PipelineFacts {
  import opened Prelude
  import opened Json
  import opened Rendering
  import opened LiveXray
  import opened LiveSync
  import opened Pipeline

  // ----- exactly when the process keeps the structure of the file ------------

  /**
   The branches that end with an Xray whose structure is not the file's: the
   configuration was replaced structurally and either the running process was
   left alone (the call raised, the status probe was wrong, restarts were not
   allowed, or a refused restart could not be undone), or the rollback could not
   stop the unhealthy new process.
   */
  predicate Strands(h: Host, config: Json, accepts: Json -> bool, o: Options, env: Env) {
    && accepts(config) && env.write.replaced && Structural(Previous(h.disk), config)
    && var reached := env.recorded && env.probe && o.allow;
       || (h.live.Some? && (!reached || (env.restart.Refused? && !env.undo.replaced)))
       || (reached && h.disk.Holds? && env.restart.Unhealthy? && env.undo.replaced && env.secondRestart.Refused?)
  }

  lemma BootConsistent(h: Host)
    requires h.disk.Holds? ==> Proper(h.disk.config)
    ensures Consistent(Boot(h))
  {
    if h.disk.Holds? { LoadSound(h.disk.config); }
    hide Proper, Sound, Skeleton, DesiredAccounts;
  }

  lemma RollBackConsistent(h: Host, config: Json, previous: Option<Json>, structural: bool, env: Env)
    requires h.disk == Holds(config) && Proper(config)
    requires previous.Some? ==> Proper(previous.value)
    requires structural <==> Structural(previous, config)
    requires h.live.Some? ==> Sound(h.live.value) && previous.Some? && h.live.value.skeleton == Skeleton(previous.value)
    ensures Consistent(RestartOrRollBack(h, previous, structural, env).host) <==>
            !(structural &&
              (|| (h.live.Some? && env.restart.Refused? && !env.undo.replaced)
               || (previous.Some? && env.restart.Unhealthy? && env.undo.replaced && env.secondRestart.Refused?)))
  {
    BootConsistent(h);
    LoadSound(config);
    var r := RestartXray(h, env.restart);
    if !r.ok && previous.Some? && env.undo.replaced {
      var w := WriteConfig(r.host, previous.value, env.undo);
      BootConsistent(w.host);
    }
    hide Proper, Sound, Skeleton;
  }

  lemma ActivateConsistent(
      h: Host, config: Json, tags: seq<string>, previous: Option<Json>, structural: bool, o: Options, env: Env)
    requires h.disk == Holds(config) && Proper(config) && Covers(tags, config)
    requires previous.Some? ==> Proper(previous.value)
    requires structural <==> Structural(previous, config)
    requires h.live.Some? ==> Sound(h.live.value) && previous.Some? && h.live.value.skeleton == Skeleton(previous.value)
    ensures var reached := env.probe && o.allow;
            Consistent(Activate(h, config, tags, previous, structural, o, env).host) <==>
            !(structural &&
              (|| (h.live.Some? && (!reached || (env.restart.Refused? && !env.undo.replaced)))
               || (reached && previous.Some? &&
                   env.restart.Unhealthy? && env.undo.replaced && env.secondRestart.Refused?)))
  {
    hide Proper, Sound, Covers, Skeleton;
    if env.probe && !structural && !o.force {
      if h.live.Some? {
        SyncOnHost(h, config, tags, env.replies);
      } else {
        NoLiveNoSync(h, config, tags, env.replies);
      }
      var y := SyncHost(h, config, tags, env.replies);
      hide SyncHost;
      RollBackConsistent(y.host, config, previous, structural, env);
    } else {
      RollBackConsistent(h, config, previous, structural, env);
    }
  }

  /** `apply_configuration` keeps "running implies structure(live) = structure(disk)" iff it is not stranded. */
  lemma ApplyConsistentIff(h: Host, config: Json, tags: seq<string>, accepts: Json -> bool, o: Options, env: Env)
    requires Consistent(h) && Proper(config) && Covers(tags, config)
    ensures Consistent(Apply(h, Success(config), tags, accepts, o, env).host) <==> !Strands(h, config, accepts, o, env)
  {
    if accepts(config) {
      var w := WriteConfig(h, config, env.write);
      hide Sound, Covers, Skeleton, Activate;
      if env.write.replaced {
        ActivateConsistent(w.host, config, tags, Previous(h.disk), Structural(Previous(h.disk), config), o, env);
      }
    }
  }

  // ----- an input that strands the process -----------------------------------------

  /** One REALITY inbound on this port, with nobody on its list. */
  function OneInbound(port: int): Json {
    Obj(map["inbounds" := Arr([OneInboundEntry(port)])])
  }

  function OneInboundEntry(port: int): Json {
    Obj(map["tag" := Str(REALITY), "port" := Num(port), "settings" := Obj(map["clients" := Arr([])])])
  }

  lemma EntryIsBlank(port: int)
    ensures BlankInbound(OneInboundEntry(port)) == OneInboundEntry(port)
  {
    var f := OneInboundEntry(port).fields;
    var clients := f["settings"].fields;
    assert clients["clients" := Arr([])] == clients;
    assert f["settings" := Obj(clients)] == f;
  }

  lemma OneInboundIsBlank(port: int)
    ensures Skeleton(OneInbound(port)) == OneInbound(port)
  {
    EntryIsBlank(port);
    hide BlankInbound;
    var f := OneInbound(port).fields;
    assert BlankInbounds([OneInboundEntry(port)]) == [OneInboundEntry(port)];
    assert f["inbounds" := Arr([OneInboundEntry(port)])] == f;
  }

  lemma OneInboundFields(port: int, tag: string)
    ensures InboundFields(OneInbound(port), tag) ==
            if tag == REALITY then Some(OneInboundEntry(port).fields) else None
  {
    assert HasTag(OneInboundEntry(port).fields, tag) <==> tag == REALITY;
    assert [OneInboundEntry(port)][1..] == [];
  }

  lemma OneInboundIsProper(port: int)
    ensures Proper(OneInbound(port)) && Covers([REALITY], OneInbound(port))
  {
    OneInboundIsBlank(port);
    OneInboundFields(port, REALITY);
    OneInboundFields(port, WS_BACKEND);
    hide InboundFields, Skeleton;
  }

  lemma ProperIsSignable(config: Json)
    ensures Proper(config) ==> Signable(config)
  {
    hide Signable, DesiredAccounts, InboundFields, Skeleton;
  }

  lemma PortIsStructure(port: int, newPort: int)
    requires port != newPort
    ensures Structural(Some(OneInbound(port)), OneInbound(newPort))
  {
    OneInboundIsBlank(port);
    OneInboundIsBlank(newPort);
    hide Skeleton;
    assert OneInboundEntry(port).fields["port"] != OneInboundEntry(newPort).fields["port"];
    assert OneInbound(port).fields["inbounds"].items[0] != OneInbound(newPort).fields["inbounds"].items[0];
  }

  lemma LoadedIsConsistent(config: Json)
    requires Proper(config)
    ensures Consistent(Host(Holds(config), Missing, Some(Load(config)), 1))
  {
    LoadSound(config);
    hide Proper, Sound, Skeleton, DesiredAccounts;
  }

  /**
   The port is changed under a running Xray, the restart is refused and the old
   file cannot be put back: the call raises, and Xray goes on with the structure
   of a file that is gone.
   */
  lemma RefusedRestartStrands(port: int, newPort: int, accepts: Json -> bool, replies: Replies)
    requires port != newPort && accepts(OneInbound(newPort))
    ensures var before, after := OneInbound(port), OneInbound(newPort);
            var h := Host(Holds(before), Missing, Some(Load(before)), 1);
            var env := Env(WriteIo(true, Missing, true), true, true, replies, Refused,
                           WriteIo(true, Missing, false), Refused);
            var r := Apply(h, Success(after), [REALITY], accepts, Options(false, true), env);
            && Consistent(h) && Strands(h, after, accepts, Options(false, true), env)
            && r.outcome.Raised? && r.host.disk == Holds(after) && r.host.live == h.live && !Consistent(r.host)
  {
    var before, after := OneInbound(port), OneInbound(newPort);
    var h := Host(Holds(before), Missing, Some(Load(before)), 1);
    var env := Env(WriteIo(true, Missing, true), true, true, replies, Refused, WriteIo(true, Missing, false), Refused);
    hide OneInbound, Proper, Covers, Sound, Skeleton, Load, Consistent;
    ProperIsSignable(before);
    ProperIsSignable(after);
    OneInboundIsProper(port);
    OneInboundIsProper(newPort);
    PortIsStructure(port, newPort);
    LoadedIsConsistent(before);
    ApplyConsistentIff(h, after, [REALITY], accepts, Options(false, true), env);
  }

  // ----- an apply that keeps the structure, at every moment ----------------------

  /** File and process both have this structure. */
  ghost predicate Uniform(h: Host, structure: Json) {
    && h.disk.Holds? && Proper(h.disk.config) && Skeleton(h.disk.config) == structure
    && (h.live.Some? ==> h.live.value.skeleton == structure && Sound(h.live.value))
  }

  ghost predicate AllUniform(moments: seq<Host>, structure: Json) {
    forall k | 0 <= k < |moments| :: Uniform(moments[k], structure)
  }

  lemma UniformMoment(moments: seq<Host>, k: nat, structure: Json)
    requires AllUniform(moments, structure) && k < |moments|
    ensures Consistent(moments[k])
  {
    assert Uniform(moments[k], structure);
    hide Proper, Sound, Skeleton;
  }

  lemma BootUniform(h: Host, structure: Json)
    requires Uniform(h, structure)
    ensures Uniform(Boot(h), structure) && Uniform(h.(live := None), structure)
  {
    LoadSound(h.disk.config);
    hide Proper, Sound, Skeleton, DesiredAccounts;
  }

  lemma RestartUniform(h: Host, reply: RestartReply, structure: Json)
    requires Uniform(h, structure)
    ensures var r := RestartXray(h, reply); Uniform(r.host, structure) && AllUniform(r.moments, structure)
  {
    BootUniform(h, structure);
    hide Uniform, Boot;
  }

  lemma WriteUniform(h: Host, config: Json, io: WriteIo, structure: Json)
    requires Uniform(h, structure) && Proper(config) && Skeleton(config) == structure
    ensures var w := WriteConfig(h, config, io); Uniform(w.host, structure) && AllUniform(w.moments, structure)
  {
    hide Proper, Sound, Skeleton;
  }

  lemma SyncUniform(h: Host, config: Json, tags: seq<string>, r: Replies, structure: Json)
    requires Uniform(h, structure) && Proper(config) && Covers(tags, config)
    ensures var y := SyncHost(h, config, tags, r); Uniform(y.host, structure) && AllUniform(y.moments, structure)
  {
    hide Proper, Covers, Sound, Skeleton, SyncTags;
    if h.live.Some? {
      var live := h.live.value;
      CoveredNoBlank(config, tags);
      SoundNoBlank(live);
      SyncMomentsKeepShape(live, config, tags, r);
      var res := SyncTags(live, config, tags, r);
      StillSound(live, res.live);
      forall k | 0 <= k < |res.moments| ensures Uniform(h.(live := Some(res.moments[k])), structure) {
        StillSound(live, res.moments[k]);
      }
    }
  }

  lemma RollBackUniform(h: Host, previous: Json, structural: bool, env: Env, structure: Json)
    requires Uniform(h, structure) && Proper(previous) && Skeleton(previous) == structure
    ensures AllUniform(RestartOrRollBack(h, Some(previous), structural, env).moments, structure)
  {
    hide Uniform, Proper, Skeleton, RestartXray, WriteConfig;
    RestartUniform(h, env.restart, structure);
    var r := RestartXray(h, env.restart).host;
    WriteUniform(r, previous, env.undo, structure);
    RestartUniform(WriteConfig(r, previous, env.undo).host, env.secondRestart, structure);
  }

  /** At every moment of an apply that does not change the structure, file and process agree on it. */
  lemma UnstructuralMoments(h: Host, config: Json, tags: seq<string>, accepts: Json -> bool, o: Options, env: Env)
    requires Consistent(h) && Proper(config) && Covers(tags, config) && !Structural(Previous(h.disk), config)
    ensures AllUniform(Apply(h, Success(config), tags, accepts, o, env).moments, Skeleton(config))
  {
    hide Uniform, Proper, Covers, Skeleton, Sound, WriteConfig, SyncHost, RestartOrRollBack, Signable;
    var structure := Skeleton(config);
    ConsistentIsUniform(h, config);
    WriteUniform(h, config, env.write, structure);
    var w := WriteConfig(h, config, env.write).host;
    SyncUniform(w, config, tags, env.replies, structure);
    RollBackUniform(w, h.disk.config, false, env, structure);
    RollBackUniform(SyncHost(w, config, tags, env.replies).host, h.disk.config, false, env, structure);
  }

  lemma ConsistentIsUniform(h: Host, config: Json)
    requires Consistent(h) && !Structural(Previous(h.disk), config)
    ensures Uniform(h, Skeleton(config)) && Proper(h.disk.config) && Skeleton(h.disk.config) == Skeleton(config)
  {
    hide Proper, Sound, Skeleton;
  }

  // ----- the files, at every moment ------------------------------------------

  /** The active path holds only configurations that validation accepted. */
  predicate SafeDisk(h: Host, accepts: Json -> bool) {
    h.disk.Holds? ==> accepts(h.disk.config)
  }

  lemma RestartFiles(h: Host, reply: RestartReply)
    ensures var r := RestartXray(h, reply);
            && r.host.disk == h.disk && r.host.backup == h.backup
            && forall k | 0 <= k < |r.moments| :: r.moments[k].disk == h.disk && r.moments[k].backup == h.backup
  {
  }

  lemma WriteFiles(h: Host, config: Json, io: WriteIo)
    ensures var w := WriteConfig(h, config, io);
            && (forall k | 0 <= k < |w.moments| :: w.moments[k].disk == h.disk || w.moments[k].disk == Holds(config))
            && w.host.disk == (if w.ok then Holds(config) else h.disk)
            && w.host.backup == (if h.disk.Missing? then h.backup else if io.copied then h.disk else io.leftover)
            && w.host.live == h.live && w.ok == io.replaced
  {
  }

  lemma RollBackFiles(h: Host, previous: Option<Json>, structural: bool, env: Env)
    ensures var r := RestartOrRollBack(h, previous, structural, env);
            && (forall k | 0 <= k < |r.moments| ::
                  r.moments[k].disk == h.disk || (previous.Some? && r.moments[k].disk == Holds(previous.value)))
            && (r.outcome.Raised? ==> r.host.disk == h.disk)
            && (r.outcome.Applied? && r.outcome.rolledBack ==>
                  && previous.Some? && r.host.disk == Holds(previous.value)
                  && (env.undo.copied && !h.disk.Missing? ==> r.host.backup == h.disk))
            && (r.outcome.Applied? && !r.outcome.rolledBack ==> r.host.disk == h.disk && r.host.backup == h.backup)
            && (r.outcome.Applied? && r.outcome.rolledBack <==> r.outcome.Applied? && r.outcome.via.Rollback?)
            && (r.outcome.Applied? ==> r.outcome.via in {Method.Restart, Rollback})
  {
    hide RestartXray, WriteConfig;
    RestartFiles(h, env.restart);
    var r1 := RestartXray(h, env.restart).host;
    if previous.Some? {
      WriteFiles(r1, previous.value, env.undo);
      RestartFiles(WriteConfig(r1, previous.value, env.undo).host, env.secondRestart);
    }
  }

  lemma SyncFiles(h: Host, config: Json, tags: seq<string>, r: Replies)
    ensures var y := SyncHost(h, config, tags, r);
            && y.host.disk == h.disk && y.host.backup == h.backup
            && forall k | 0 <= k < |y.moments| :: y.moments[k].disk == h.disk && y.moments[k].backup == h.backup
  {
    hide SyncTags;
  }

  lemma ActivateFiles(
      h: Host, config: Json, tags: seq<string>, previous: Option<Json>, structural: bool, o: Options, env: Env)
    requires h.disk == Holds(config)
    ensures var r := Activate(h, config, tags, previous, structural, o, env);
            && (forall k | 0 <= k < |r.moments| ::
                  r.moments[k].disk == h.disk || (previous.Some? && r.moments[k].disk == Holds(previous.value)))
            && (r.outcome.Raised? ==> r.host.disk == h.disk)
            && (r.outcome.Applied? && r.outcome.rolledBack ==>
                  && previous.Some? && r.host.disk == Holds(previous.value)
                  && (env.undo.copied ==> r.host.backup == h.disk))
            && (r.outcome.Applied? && !r.outcome.rolledBack ==> r.host.disk == h.disk && r.host.backup == h.backup)
            && (r.outcome.Applied? ==> (r.outcome.rolledBack <==> r.outcome.via.Rollback?) && !r.outcome.via.Validate?)
  {
    hide SyncHost, RestartOrRollBack;
    SyncFiles(h, config, tags, env.replies);
    RollBackFiles(h, previous, structural, env);
    RollBackFiles(SyncHost(h, config, tags, env.replies).host, previous, structural, env);
  }

  /**
   The files through one apply. Validation failures touch nothing; every other
   result leaves the new configuration active and the old one in the backup,
   except a rollback, which leaves the old one active and the failed one in the
   backup; and the active path never holds anything else on the way.
   */
  lemma ApplyFiles(h: Host, config: Json, tags: seq<string>, accepts: Json -> bool, o: Options, env: Env)
    requires SafeDisk(h, accepts)
    ensures var r := Apply(h, Success(config), tags, accepts, o, env);
            && SafeDisk(r.host, accepts)
            && (forall k | 0 <= k < |r.moments| :: SafeDisk(r.moments[k], accepts))
            && (r.outcome.Applied? ==> (r.outcome.via.Validate? <==> !accepts(config)))
            && (!accepts(config) ==> r.host == h && r.moments == [])
            && (r.outcome.Applied? && accepts(config) && r.outcome.rolledBack ==>
                  && r.host.disk == h.disk && h.disk.Holds?
                  && (env.write.copied && env.undo.copied ==> r.host.backup == Holds(config)))
            && (r.outcome.Applied? && accepts(config) && !r.outcome.rolledBack ==>
                  && r.host.disk == Holds(config)
                  && r.host.backup == (if h.disk.Missing? then h.backup
                                       else if env.write.copied then h.disk else env.write.leftover))
  {
    if accepts(config) {
      hide WriteConfig, Activate, Skeleton;
      var w := WriteConfig(h, config, env.write);
      WriteFiles(h, config, env.write);
      if w.ok {
        var previous := Previous(h.disk);
        ActivateFiles(w.host, config, tags, previous, Structural(previous, config), o, env);
      }
    }
  }

  // ----- whole runs ------------------------------------------------------------

  /** Everything that can happen to the host, in any order. */
  datatype Event =
    | Applies(rendered: Result<Json, RenderError>, tags: seq<string>, o: Options, env: Env)
    /** An apply whose process dies after its first `at + 1` effects. */
    | Dies(rendered: Result<Json, RenderError>, tags: seq<string>, o: Options, env: Env, at: nat)
    | XrayExits
    | XrayStarts

  function Next(h: Host, e: Event, accepts: Json -> bool): Host {
    match e
    case Applies(rendered, tags, o, env) => Apply(h, rendered, tags, accepts, o, env).host
    case Dies(rendered, tags, o, env, at) =>
      var moments := Apply(h, rendered, tags, accepts, o, env).moments;
      if at < |moments| then moments[at] else h
    case XrayExits => h.(live := None)
    case XrayStarts => if h.live.None? then Boot(h) else h
  }

  function After(h: Host, run: seq<Event>, accepts: Json -> bool): Host {
    if run == [] then h else Next(After(h, run[..|run| - 1], accepts), run[|run| - 1], accepts)
  }

  /** Over every run, crashes and rollbacks included, the active path is only ever accepted configurations. */
  lemma {:induction false} DiskAlwaysAccepted(h: Host, run: seq<Event>, accepts: Json -> bool)
    requires SafeDisk(h, accepts)
    ensures SafeDisk(After(h, run, accepts), accepts)
  {
    if run != [] {
      var n := |run| - 1;
      DiskAlwaysAccepted(h, run[..n], accepts);
      var now := After(h, run[..n], accepts);
      match run[n]
      case Applies(rendered, tags, o, env) =>
        if rendered.Success? { ApplyFiles(now, rendered.value, tags, accepts, o, env); }
        hide Install;
      case Dies(rendered, tags, o, env, _) =>
        if rendered.Success? { ApplyFiles(now, rendered.value, tags, accepts, o, env); }
        hide Install;
      case _ =>
    }
  }

  /** Applies that do not strand the process, and deaths inside applies that keep the structure. */
  ghost predicate Steady(h: Host, e: Event, accepts: Json -> bool) {
    match e
    case Applies(rendered, tags, o, env) =>
      rendered.Success? ==>
        Proper(rendered.value) && Covers(tags, rendered.value) && !Strands(h, rendered.value, accepts, o, env)
    case Dies(rendered, tags, _, _, _) =>
      rendered.Success? && accepts(rendered.value) ==>
        Proper(rendered.value) && Covers(tags, rendered.value) && !Structural(Previous(h.disk), rendered.value)
    case _ => true
  }

  lemma StepConsistent(h: Host, e: Event, accepts: Json -> bool)
    requires Consistent(h) && Steady(h, e, accepts)
    ensures Consistent(Next(h, e, accepts))
  {
    hide Proper, Covers, Strands, Sound, Skeleton, Structural, Install;
    match e
    case Applies(rendered, tags, o, env) =>
      if rendered.Success? { ApplyConsistentIff(h, rendered.value, tags, accepts, o, env); }
    case Dies(rendered, tags, o, env, at) =>
      var moments := Apply(h, rendered, tags, accepts, o, env).moments;
      if at < |moments| {
        UnstructuralMoments(h, rendered.value, tags, accepts, o, env);
        UniformMoment(moments, at, Skeleton(rendered.value));
      }
    case XrayStarts => BootConsistent(h);
    case _ =>
  }

  /** Over every run of such steps the running structure is the one on disk. */
  lemma {:induction false} AlwaysConsistent(h: Host, run: seq<Event>, accepts: Json -> bool)
    requires Consistent(h)
    requires forall k | 0 <= k < |run| :: Steady(After(h, run[..k], accepts), run[k], accepts)
    ensures Consistent(After(h, run, accepts))
  {
    hide Consistent, Steady, Next;
    if run != [] {
      var n := |run| - 1;
      forall k | 0 <= k < n ensures Steady(After(h, run[..n][..k], accepts), run[..n][k], accepts) {
        assert run[..n][..k] == run[..k];
      }
      AlwaysConsistent(h, run[..n], accepts);
      StepConsistent(After(h, run[..n], accepts), run[n], accepts);
    }
  }
}
