/** The states an apply goes through: none is skipped, and they end where it ends. */
module ApplyMoments {
  import opened Prelude
  import opened Json
  import opened Accounts
  import opened Rendering
  import opened LiveXray
  import opened LiveSync
  import opened Pipeline
  import opened PipelineFacts
  import opened Reconciliation
  import opened Interleaving
  import opened InterleavingRefinement

  // ----- they end where the apply ends ------------------------------------------------------

  /** The last of these states is `end`; without any nothing has changed. */
  ghost predicate EndsAt(start: Host, moments: seq<Host>, end: Host) {
    if moments == [] then end == start else moments[|moments| - 1] == end
  }

  lemma EndsJoin(start: Host, a: seq<Host>, mid: Host, b: seq<Host>, end: Host)
    requires EndsAt(start, a, mid) && EndsAt(mid, b, end)
    ensures EndsAt(start, a + b, end)
  {
    if b == [] { assert a + b == a; }
  }

  lemma {:induction false} SyncTagsEnd(live: Live, config: Json, tags: seq<string>, r: Replies)
    ensures var res := SyncTags(live, config, tags, r);
            if res.moments == [] then res.live == live else res.moments[|res.moments| - 1] == res.live
    decreases |tags|
  {
    hide SyncTag, DesiredAccounts;
    if tags != [] {
      match DesiredAccounts(config, tags[0])
      case None => SyncTagsEnd(live, config, tags[1..], r);
      case Some(desired) =>
        if tags[0] in live.lists {
          var t := SyncTag(live.lists[tags[0]], desired, r.For(tags[0]));
          SyncTagsEnd(live.(lists := live.lists[tags[0] := t.after]), config, tags[1..], r);
        }
    }
  }

  lemma SyncEnds(h: Host, config: Json, tags: seq<string>, r: Replies)
    ensures var y := SyncHost(h, config, tags, r); EndsAt(h, y.moments, y.host)
  {
    hide SyncTags;
    if h.live.Some? { SyncTagsEnd(h.live.value, config, tags, r); }
  }

  lemma RestartEndsAt(h: Host, reply: RestartReply)
    ensures var r := RestartXray(h, reply); EndsAt(h, r.moments, r.host)
  {
  }

  lemma RollBackEnds(h: Host, previous: Option<Json>, structural: bool, env: Env)
    ensures var r := RestartOrRollBack(h, previous, structural, env); EndsAt(h, r.moments, r.host)
  {
    hide RestartXray, WriteConfig, EndsAt;
    var r := RestartXray(h, env.restart);
    RestartEndsAt(h, env.restart);
    if previous.Some? {
      var w := WriteConfig(r.host, previous.value, env.undo);
      WriteEnds(r.host, previous.value, env.undo);
      EndsJoin(h, r.moments, r.host, w.moments, w.host);
      var r2 := RestartXray(w.host, env.secondRestart);
      RestartEndsAt(w.host, env.secondRestart);
      EndsJoin(h, r.moments + w.moments, w.host, r2.moments, r2.host);
    }
  }

  lemma WriteEnds(h: Host, config: Json, io: WriteIo)
    ensures var w := WriteConfig(h, config, io); EndsAt(h, w.moments, w.host)
  {
  }

  lemma ActivateEndsAt(
      h: Host, config: Json, tags: seq<string>, previous: Option<Json>, structural: bool, o: Options, env: Env)
    ensures var r := Activate(h, config, tags, previous, structural, o, env); EndsAt(h, r.moments, r.host)
  {
    hide SyncHost, RestartOrRollBack;
    var y := SyncHost(h, config, tags, env.replies);
    var z := RestartOrRollBack(y.host, previous, structural, env);
    SyncEnds(h, config, tags, env.replies);
    RollBackEnds(h, previous, structural, env);
    RollBackEnds(y.host, previous, structural, env);
    EndsJoin(h, y.moments, y.host, z.moments, z.host);
  }

  lemma ApplyEndsAt(
      h: Host, rendered: Result<Json, RenderError>, tags: seq<string>, accepts: Json -> bool, o: Options, env: Env)
    ensures var r := Apply(h, rendered, tags, accepts, o, env); EndsAt(h, r.moments, r.host)
  {
    hide WriteConfig, Activate, Signable, Structural;
    if rendered.Success? {
      var config, previous := rendered.value, Previous(h.disk);
      var w := WriteConfig(h, config, env.write);
      var a := Activate(w.host, config, tags, previous, Structural(previous, config), o, env);
      WriteEnds(h, config, env.write);
      ActivateEndsAt(w.host, config, tags, previous, Structural(previous, config), o, env);
      EndsJoin(h, w.moments, w.host, a.moments, a.host);
    }
  }

  // ----- every state of the cut apply is one of them -----------------------------------------

  /** The states after each step of the holder, with nobody in between. */
  ghost function Visited(h: Host, ph: Phase, d: Deployment, accepts: Json -> bool, env: Env): set<Host>
    requires ph.Critical()
    decreases Stage(ph), Left(ph)
  {
    if ph.Finished? then {}
    else
      var a := NextAction(ph, env);
      if !Enabled(ph, a) then {}
      else
        Progress(h, ph, d, accepts, env);
        var n := NextPhase(h, ph, a, d, accepts);
        {n.0} + Visited(n.0, n.1, d, accepts, env)
  }

  lemma VisitedSteps(h: Host, ph: Phase, d: Deployment, accepts: Json -> bool, env: Env)
    requires ph.Critical() && !ph.Finished? && Enabled(ph, NextAction(ph, env))
    ensures var n := NextPhase(h, ph, NextAction(ph, env), d, accepts);
            n.1.Critical() && Visited(h, ph, d, accepts, env) == {n.0} + Visited(n.0, n.1, d, accepts, env)
  {
    Progress(h, ph, d, accepts, env);
    hide NextPhase, NextAction, Enabled;
  }

  lemma VisitedEnds(h: Host, snap: Snapshot, outcome: Outcome, d: Deployment, accepts: Json -> bool, env: Env)
    ensures Visited(h, Finished(snap, outcome), d, accepts, env) == {}
  {
  }

  ghost predicate Among(visited: set<Host>, h: Host, moments: seq<Host>) {
    forall g | g in visited :: g == h || g in moments
  }

  lemma RestartIsMoment(h: Host, reply: RestartReply)
    ensures RestartXray(h, reply).host in RestartXray(h, reply).moments
  {
    var r := RestartXray(h, reply);
    assert r.moments[|r.moments| - 1] == r.host;
  }

  lemma WriteIsMoment(h: Host, config: Json, io: WriteIo)
    ensures WriteConfig(h, config, io).host in WriteConfig(h, config, io).moments
  {
    var w := WriteConfig(h, config, io);
    assert w.moments[|w.moments| - 1] == w.host;
  }

  lemma VisitedFromRestart(h: Host, job: Job, d: Deployment, accepts: Json -> bool, env: Env)
    ensures var r := RestartOrRollBack(h, job.previous, Structural(job.previous, job.config), env);
            Among(Visited(h, NeedsRestart(job), d, accepts, env), h, r.moments)
  {
    hide RestartXray, WriteConfig, Structural, Visited;
    VisitedSteps(h, NeedsRestart(job), d, accepts, env);
    RestartIsMoment(h, env.restart);
    var n := RestartPhase(h, job, env.restart);
    if n.1.NeedsUndo? {
      VisitedSteps(n.0, n.1, d, accepts, env);
      WriteIsMoment(n.0, job.previous.value, env.undo);
      var w := WriteBackPhase(n.0, job, env.undo);
      if w.1.NeedsSecondRestart? {
        VisitedSteps(w.0, w.1, d, accepts, env);
        RestartIsMoment(w.0, env.secondRestart);
        var z := RestartAgainPhase(w.0, job, env.secondRestart);
        VisitedEnds(z.0, job.snap, z.1.outcome, d, accepts, env);
      } else {
        VisitedEnds(w.0, job.snap, w.1.outcome, d, accepts, env);
      }
    } else {
      VisitedEnds(n.0, job.snap, n.1.outcome, d, accepts, env);
    }
  }

  /** The host with these lists in the running Xray. */
  ghost predicate Hosts(h: Host, moments: seq<Live>, g: Host) {
    g == h || exists k :: 0 <= k < |moments| && g == h.(live := Some(moments[k]))
  }

  lemma VisitedTag(
      h: Host, job: Job, todo: seq<string>, desired: AccountList, d: Deployment, accepts: Json -> bool, env: Env)
    requires todo != [] && HasList(h, todo[0]) && DesiredAccounts(job.config, todo[0]) == Some(desired)
    ensures var t := SyncTag(h.live.value.lists[todo[0]], desired, env.replies.For(todo[0]));
            var end := WithList(h, todo[0], t.after);
            var next := if t.ok then Syncing(job, todo[1..]) else NeedsRestart(job);
            Visited(h, Syncing(job, todo), d, accepts, env) <=
            {h, WithList(h, todo[0], t.trimmed), end} + Visited(end, next, d, accepts, env)
  {
    hide Visited, DesiredAccounts, Stale, Additions, Trimmed, Grown, RemovalOk, AdditionOk, RemovePhase, AddPhase,
      WithList;
    var m, r := h.live.value.lists[todo[0]], env.replies.For(todo[0]);
    VisitedSteps(h, Syncing(job, todo), d, accepts, env);
    SameList(h, todo[0]);
    if r.answered {
      RemoveStep(h, job, todo, desired, r);
      VisitedSteps(h, Removing(job, todo, Stale(m, desired), Additions(m, desired)), d, accepts, env);
      var trimmed := Trimmed(m, desired, r.removal);
      var g := WithList(h, todo[0], trimmed);
      ReadList(h, todo[0], trimmed);
      if RemovalOk(m, desired, r.removal) {
        AddStep(g, job, todo, m, desired, r);
        VisitedSteps(g, Adding(job, todo, Additions(m, desired)), d, accepts, env);
        ListTwice(h, todo[0], trimmed, Grown(m, trimmed, desired, r.addition));
      }
    }
  }

  ghost predicate ReachedBySync(visited: set<Host>, h: Host, moments: seq<Live>, more: set<Host>) {
    forall g | g in visited :: Hosts(h, moments, g) || g in more
  }

  lemma HostsOn(h: Host, mid: Live, end: Live, rest: seq<Live>, g: Host)
    requires Hosts(h.(live := Some(end)), rest, g)
    ensures Hosts(h, [mid, end] + rest, g)
  {
    var all := [mid, end] + rest;
    if g == h.(live := Some(end)) {
      assert g == h.(live := Some(all[1]));
    } else {
      var k :| 0 <= k < |rest| && g == h.(live := Some(end)).(live := Some(rest[k]));
      assert all[k + 2] == rest[k];
    }
  }

  lemma {:induction false} VisitedSync(
      h: Host, job: Job, todo: seq<string>, d: Deployment, accepts: Json -> bool, env: Env)
    requires h.live.Some?
    ensures var res := SyncTags(h.live.value, job.config, todo, env.replies);
            var more := if res.ok then {} else Visited(h.(live := Some(res.live)), NeedsRestart(job), d, accepts, env);
            ReachedBySync(Visited(h, Syncing(job, todo), d, accepts, env), h, res.moments, more)
    decreases |todo|
  {
    hide Visited, DesiredAccounts, SyncTag, WithList, Hosts;
    HostsItself(h, SyncTags(h.live.value, job.config, todo, env.replies).moments);
    if todo == [] {
      VisitedSteps(h, Syncing(job, todo), d, accepts, env);
      VisitedEnds(h, job.snap, Applied(true, Api, false, false, false), d, accepts, env);
    } else {
      match DesiredAccounts(job.config, todo[0])
      case None =>
        VisitedSteps(h, Syncing(job, todo), d, accepts, env);
        VisitedSync(h, job, todo[1..], d, accepts, env);
      case Some(desired) =>
        if HasList(h, todo[0]) {
          VisitedOne(h, job, todo, desired, d, accepts, env);
        } else {
          VisitedSteps(h, Syncing(job, todo), d, accepts, env);
          assert h.(live := Some(h.live.value)) == h;
        }
    }
  }

  lemma HostsItself(h: Host, moments: seq<Live>)
    ensures Hosts(h, moments, h)
  {
  }

  lemma VisitedOne(
      h: Host, job: Job, todo: seq<string>, desired: AccountList, d: Deployment, accepts: Json -> bool, env: Env)
    requires todo != [] && HasList(h, todo[0]) && DesiredAccounts(job.config, todo[0]) == Some(desired)
    ensures var res := SyncTags(h.live.value, job.config, todo, env.replies);
            var more := if res.ok then {} else Visited(h.(live := Some(res.live)), NeedsRestart(job), d, accepts, env);
            ReachedBySync(Visited(h, Syncing(job, todo), d, accepts, env), h, res.moments, more)
    decreases |todo|, 0
  {
    hide Visited, DesiredAccounts, SyncTag, WithList, Hosts;
    var live := h.live.value;
    var t := SyncTag(live.lists[todo[0]], desired, env.replies.For(todo[0]));
    var mid := live.(lists := live.lists[todo[0] := t.trimmed]);
    var end := live.(lists := live.lists[todo[0] := t.after]);
    var g := h.(live := Some(end));
    var res := SyncTags(live, job.config, todo, env.replies);
    VisitedTag(h, job, todo, desired, d, accepts, env);
    ReadList(h, todo[0], t.trimmed);
    ReadList(h, todo[0], t.after);
    HostsItself(h, res.moments);
    if t.ok {
      var rest := SyncTags(end, job.config, todo[1..], env.replies);
      VisitedSync(g, job, todo[1..], d, accepts, env);
      HostsTwo(h, mid, end, rest.moments);
      forall x | Hosts(g, rest.moments, x) ensures Hosts(h, res.moments, x) {
        HostsOn(h, mid, end, rest.moments, x);
      }
      assert g.(live := Some(rest.live)) == h.(live := Some(rest.live));
    } else {
      HostsTwo(h, mid, end, []);
      assert [mid, end] + [] == [mid, end];
    }
  }

  lemma HostsTwo(h: Host, mid: Live, end: Live, rest: seq<Live>)
    ensures Hosts(h, [mid, end] + rest, h.(live := Some(mid))) && Hosts(h, [mid, end] + rest, h.(live := Some(end)))
  {
    var all := [mid, end] + rest;
    assert all[0] == mid && all[1] == end;
  }

  lemma HostsAreMoments(h: Host, config: Json, tags: seq<string>, r: Replies, g: Host)
    requires h.live.Some? && Hosts(h, SyncTags(h.live.value, config, tags, r).moments, g)
    ensures g == h || g in SyncHost(h, config, tags, r).moments
  {
    hide SyncTags;
    var moments := SyncTags(h.live.value, config, tags, r).moments;
    if g != h {
      var k :| 0 <= k < |moments| && g == h.(live := Some(moments[k]));
      assert SyncHost(h, config, tags, r).moments[k] == g;
    }
  }

  lemma VisitedFromWrote(h: Host, job: Job, d: Deployment, accepts: Json -> bool, env: Env)
    requires env.probe == h.live.Some? && env.recorded
    ensures var r := Activate(h, job.config, Tags(d), job.previous, Structural(job.previous, job.config),
                              Options(false, true), env);
            Among(Visited(h, Wrote(job), d, accepts, env), h, r.moments)
  {
    hide Visited, SyncTags, RestartOrRollBack, Structural, Hosts, SyncHost;
    VisitedSteps(h, Wrote(job), d, accepts, env);
    var n := ReachPhase(h, job, d);
    if n.1.Finished? {
      VisitedEnds(h, job.snap, n.1.outcome, d, accepts, env);
    } else if n.1.NeedsRestart? {
      VisitedFromRestart(h, job, d, accepts, env);
    } else {
      VisitedSync(h, job, Tags(d), d, accepts, env);
      SyncHostIs(h, job.config, Tags(d), env.replies);
      var y := SyncHost(h, job.config, Tags(d), env.replies);
      VisitedFromRestart(y.host, job, d, accepts, env);
      SyncEnds(h, job.config, Tags(d), env.replies);
      forall g | Hosts(h, SyncTags(h.live.value, job.config, Tags(d), env.replies).moments, g)
        ensures g == h || g in y.moments
      {
        HostsAreMoments(h, job.config, Tags(d), env.replies, g);
      }
      assert y.host == h || y.host in y.moments;
    }
  }

  /**
   No state is skipped: whatever file, process and account lists the apply cut at
   each effect and API call goes through, with nobody in between, is where it
   starts or one of the moments of `apply_configuration`.
   */
  lemma VisitedAreMoments(h: Host, snap: Snapshot, d: Deployment, accepts: Json -> bool, env: Env)
    requires env.probe == h.live.Some?
    ensures var r := Apply(h, Rendered(d, snap.users), Tags(d), accepts, Options(false, true), env);
            Among(Visited(h, Locked(snap), d, accepts, env), h, r.moments)
  {
    hide Visited, WriteConfig, Activate, Rendered, Skeleton, Signable;
    VisitedSteps(h, Locked(snap), d, accepts, env);
    var n := InstallPhase(h, snap, d, accepts, env.write);
    if n.1.Wrote? {
      WriteFiles(h, n.1.job.config, env.write);
      WriteIsMoment(h, n.1.job.config, env.write);
      if env.recorded {
        VisitedFromWrote(n.0, n.1.job, d, accepts, env);
      } else {
        VisitedSteps(n.0, n.1, d, accepts, env);
        VisitedEnds(n.0, snap, Raised, d, accepts, env);
      }
    } else {
      if Rendered(d, snap.users).Success? { WriteIsMoment(h, Rendered(d, snap.users).value, env.write); }
      VisitedEnds(n.0, snap, n.1.outcome, d, accepts, env);
    }
  }

  // ----- what no step of the cut apply shows ---------------------------------------------------

  /** While the backup is being copied its old content is gone, and the active file is still the old one. */
  lemma TornBackupIsMoment(
      h: Host, config: Json, tags: seq<string>, accepts: Json -> bool, o: Options, env: Env)
    requires h.disk.Holds? && accepts(config) && Signable(h.disk.config) && Signable(config)
    ensures var r := Apply(h, Success(config), tags, accepts, o, env);
            r.moments != [] && r.moments[0] == h.(backup := env.write.leftover)
  {
    hide Activate, Signable, Structural;
  }

  /** A restart disconnects: there is a moment without Xray, with the new file in place. */
  lemma RestartDisconnects(h: Host, config: Json, tags: seq<string>, accepts: Json -> bool, o: Options, env: Env)
    requires Covers(tags, config)
    ensures var r := Apply(h, Success(config), tags, accepts, o, env);
            r.outcome.Applied? && r.outcome.restarted && !env.restart.Refused? ==>
              exists m :: m in r.moments && m.live.None? && m.disk == Holds(config)
  {
    hide SyncHost, RestartOrRollBack, WriteConfig, Signable, Structural, Covers;
    var previous := Previous(h.disk);
    var w := WriteConfig(h, config, env.write).host;
    WriteFiles(h, config, env.write);
    SyncFiles(w, config, tags, env.replies);
    var y := SyncHost(w, config, tags, env.replies).host;
    RollBackDisconnects(w, previous, Structural(previous, config), env);
    RollBackDisconnects(y, previous, Structural(previous, config), env);
  }

  lemma RollBackDisconnects(h: Host, previous: Option<Json>, structural: bool, env: Env)
    ensures var r := RestartOrRollBack(h, previous, structural, env);
            !env.restart.Refused? ==> exists m :: m in r.moments && m.live.None? && m.disk == h.disk
  {
    if !env.restart.Refused? {
      var r := RestartOrRollBack(h, previous, structural, env);
      assert r.moments[0] == h.(live := None);
    }
  }
}
