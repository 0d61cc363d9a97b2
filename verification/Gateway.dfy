/**
 The host as a mutable object: the configuration files and the running Xray,
 changed in place by the functions of app/xray_manager.py.
 */
module Gateway {
  import opened Prelude
  import opened Json
  import opened Rendering
  import opened LiveXray
  import opened LiveSync
  import opened Pipeline

  class XrayHost {
    var disk: File
    var backup: File
    var live: Option<Live>
    var boots: nat

    ghost function State(): Host
      reads this
    {
      Host(disk, backup, live, boots)
    }

    constructor (disk: File)
      ensures State() == Host(disk, Missing, None, 0)
    {
      this.disk := disk;
      backup, live, boots := Missing, None, 0;
    }

    method WriteConfigAtomic(config: Json, io: WriteIo) returns (done: bool)
      modifies `disk, `backup
      ensures done == WriteConfig(old(State()), config, io).ok
      ensures State() == WriteConfig(old(State()), config, io).host
    {
      if !disk.Missing? {
        backup := if io.copied then disk else io.leftover;
      }
      if io.replaced { disk := Holds(config); }
      return io.replaced;
    }

    method Start()
      modifies `live, `boots
      ensures State() == Boot(old(State()))
    {
      if disk.Holds? {
        live, boots := Some(Load(disk.config)), boots + 1;
      } else {
        live := None;
      }
    }

    method RestartXray(reply: RestartReply) returns (healthy: bool)
      modifies `live, `boots
      ensures healthy == Pipeline.RestartXray(old(State()), reply).ok
      ensures State() == Pipeline.RestartXray(old(State()), reply).host
    {
      match reply
      case Refused =>
        return false;
      case Vanished =>
        live := None;
        return false;
      case Unhealthy =>
        Start();
        return false;
      case Healthy =>
        Start();
        return live.Some?;
    }

    /** One inbound: list, remove what is stale, add what is missing. */
    method SyncInbound(tag: string, desired: AccountList, reply: TagReply) returns (synced: bool)
      requires live.Some? && tag in live.value.lists
      modifies `live
      ensures var t := SyncTag(old(live).value.lists[tag], desired, reply);
              synced == t.ok && live == Some(old(live).value.(lists := old(live).value.lists[tag := t.after]))
    {
      var m := live.value.lists[tag];
      ghost var before := live.value;
      hide Trimmed, Grown, RemovalOk, AdditionOk;
      if !reply.answered {
        assert before.lists[tag := m] == before.lists;
        return false;
      }
      var trimmed := Trimmed(m, desired, reply.removal);
      live := Some(live.value.(lists := live.value.lists[tag := trimmed]));
      if !RemovalOk(m, desired, reply.removal) { return false; }
      var grown := Grown(m, trimmed, desired, reply.addition);
      live := Some(live.value.(lists := live.value.lists[tag := grown]));
      assert before.lists[tag := trimmed][tag := grown] == before.lists[tag := grown];
      return AdditionOk(m, trimmed, desired, reply.addition);
    }

    method SyncUsersViaApi(config: Json, tags: seq<string>, r: Replies) returns (synced: bool)
      modifies `live
      ensures synced == SyncHost(old(State()), config, tags, r).ok
      ensures State() == SyncHost(old(State()), config, tags, r).host
    {
      ghost var before := live;
      assert tags[0..] == tags;
      hide SyncTag;
      for k := 0 to |tags|
        invariant before.None? ==> live.None? && forall i | 0 <= i < k :: DesiredAccounts(config, tags[i]).None?
        invariant before.Some? ==>
                    && live.Some?
                    && SyncTags(before.value, config, tags, r).ok == SyncTags(live.value, config, tags[k..], r).ok
                    && SyncTags(before.value, config, tags, r).live == SyncTags(live.value, config, tags[k..], r).live
      {
        ghost var left := tags[k..];
        assert left[0] == tags[k] && left[1..] == tags[k + 1..];
        match DesiredAccounts(config, tags[k])
        case None =>
        case Some(desired) =>
          if live.None? {
            assert tags[k] in tags;
            return false;
          }
          if tags[k] !in live.value.lists { return false; }
          var ok := SyncInbound(tags[k], desired, r.For(tags[k]));
          if !ok { return false; }
      }
      assert tags[|tags|..] == [];
      return true;
    }

    method ApplyConfiguration(
        rendered: Result<Json, RenderError>, tags: seq<string>, accepts: Json -> bool, o: Options, env: Env)
      returns (out: Outcome)
      modifies this
      ensures out == Apply(old(State()), rendered, tags, accepts, o, env).outcome
      ensures State() == Apply(old(State()), rendered, tags, accepts, o, env).host
    {
      hide SyncHost, WriteConfig, Pipeline.RestartXray;
      if rendered.Failure? { return Raised; }
      var config := rendered.value;
      if !accepts(config) { return Applied(false, Validate, false, false, false); }

      var previous := Previous(disk);
      if previous.Some? && !(Signable(previous.value) && Signable(config)) { return Raised; }
      var structural := Structural(previous, config);

      var written := WriteConfigAtomic(config, env.write);
      if !written || !env.recorded { return Raised; }
      if !env.probe { return Applied(true, Written, false, false, structural); }

      if !structural && !o.force {
        var synced := SyncUsersViaApi(config, tags, env.replies);
        if synced { return Applied(true, Api, false, false, false); }
        if !o.allow { return Applied(false, Api, false, false, false); }
      }
      if !o.allow { return Applied(false, Deferred, false, false, structural); }

      var restarted := this.RestartXray(env.restart);
      if restarted { return Applied(true, Method.Restart, true, false, structural); }
      if previous.None? { return Applied(false, Method.Restart, true, false, structural); }

      var undone := WriteConfigAtomic(previous.value, env.undo);
      if !undone { return Raised; }
      var _ := this.RestartXray(env.secondRestart);
      return Applied(false, Rollback, true, true, structural);
    }
  }
}
