/** The apply cut into steps, with nobody in between, is `apply_configuration`. */
module InterleavingRefinement {
  import opened Prelude
  import opened Json
  import opened Accounts
  import opened Rendering
  import opened LiveXray
  import opened LiveSync
  import opened Pipeline
  import opened PipelineFacts
  import opened Reconciliation
  import opened Interleaving

  function Stage(ph: Phase): nat {
    match ph
    case Locked(_) => 6
    case Wrote(_) => 5
    case Syncing(_, _) => 4
    case Removing(_, _, _, _) => 4
    case Adding(_, _, _) => 4
    case NeedsRestart(_) => 3
    case NeedsUndo(_) => 2
    case NeedsSecondRestart(_) => 1
    case _ => 0
  }

  function Left(ph: Phase): nat {
    match ph
    case Syncing(_, todo) => 3 * |todo| + 2
    case Removing(_, todo, _, _) => 3 * |todo| + 1
    case Adding(_, todo, _) => 3 * |todo|
    case _ => 0
  }

  /** What the environment answers to the next step of the holder. */
  function NextAction(ph: Phase, env: Env): Action
    requires ph.Critical() && !ph.Finished?
  {
    match ph
    case Locked(_) => Install(env.write)
    case Wrote(_) => if env.recorded then Reach else RecordFails
    case Syncing(_, todo) => Lists(todo == [] || env.replies.For(todo[0]).answered)
    case Removing(_, todo, _, _) =>
      Removes(if todo == [] then CallReply({}, false) else env.replies.For(todo[0]).removal)
    case Adding(_, todo, _) => Adds(if todo == [] then CallReply({}, false) else env.replies.For(todo[0]).addition)
    case NeedsRestart(_) => Restarts(env.restart)
    case NeedsUndo(_) => WriteBack(env.undo)
    case NeedsSecondRestart(_) => RestartsAgain(env.secondRestart)
  }

  lemma Progress(h: Host, ph: Phase, d: Deployment, accepts: Json -> bool, env: Env)
    requires ph.Critical() && !ph.Finished? && Enabled(ph, NextAction(ph, env))
    ensures var n := NextPhase(h, ph, NextAction(ph, env), d, accepts).1;
            n.Critical() && (Stage(n) < Stage(ph) || (Stage(n) == Stage(ph) && Left(n) < Left(ph)))
  {
    NextIsCritical(h, ph, NextAction(ph, env), d, accepts);
    hide Rendered, WriteConfig, RestartXray, Structural, Signable, DesiredAccounts, Stale, Additions, Acknowledged;
  }

  /** The holder's steps in the order the code takes them, with nobody in between. */
  function Alone(h: Host, ph: Phase, d: Deployment, accepts: Json -> bool, env: Env): (Host, Outcome)
    requires ph.Critical()
    decreases Stage(ph), Left(ph)
  {
    if ph.Finished? then (h, ph.outcome)
    else
      var a := NextAction(ph, env);
      if !Enabled(ph, a) then (h, Raised)
      else
        Progress(h, ph, d, accepts, env);
        var n := NextPhase(h, ph, a, d, accepts);
        Alone(n.0, n.1, d, accepts, env)
  }

  lemma AloneSteps(h: Host, ph: Phase, d: Deployment, accepts: Json -> bool, env: Env)
    requires ph.Critical() && !ph.Finished? && Enabled(ph, NextAction(ph, env))
    ensures var n := NextPhase(h, ph, NextAction(ph, env), d, accepts);
            n.1.Critical() && Alone(h, ph, d, accepts, env) == Alone(n.0, n.1, d, accepts, env)
  {
    Progress(h, ph, d, accepts, env);
    hide NextPhase, NextAction, Enabled;
  }

  lemma AloneEnds(h: Host, snap: Snapshot, outcome: Outcome, d: Deployment, accepts: Json -> bool, env: Env)
    ensures Alone(h, Finished(snap, outcome), d, accepts, env) == (h, outcome)
  {
  }

  lemma AloneFromRestart(h: Host, job: Job, d: Deployment, accepts: Json -> bool, env: Env)
    ensures var r := RestartOrRollBack(h, job.previous, Structural(job.previous, job.config), env);
            Alone(h, NeedsRestart(job), d, accepts, env) == (r.host, r.outcome)
  {
    hide RestartXray, WriteConfig, Structural, Alone;
    AloneSteps(h, NeedsRestart(job), d, accepts, env);
    var n := RestartPhase(h, job, env.restart);
    if n.1.NeedsUndo? {
      AloneSteps(n.0, n.1, d, accepts, env);
      var w := WriteBackPhase(n.0, job, env.undo);
      if w.1.NeedsSecondRestart? {
        AloneSteps(w.0, w.1, d, accepts, env);
        var z := RestartAgainPhase(w.0, job, env.secondRestart);
        AloneEnds(z.0, job.snap, z.1.outcome, d, accepts, env);
      } else {
        AloneEnds(w.0, job.snap, w.1.outcome, d, accepts, env);
      }
    } else {
      AloneEnds(n.0, job.snap, n.1.outcome, d, accepts, env);
    }
  }

  // ----- the account lists ------------------------------------------------------------

  lemma SameList(h: Host, tag: string)
    requires HasList(h, tag)
    ensures WithList(h, tag, h.live.value.lists[tag]) == h
  {
    var lists := h.live.value.lists;
    assert lists[tag := lists[tag]] == lists;
  }

  lemma ListTwice(h: Host, tag: string, a: AccountList, b: AccountList)
    requires h.live.Some?
    ensures WithList(WithList(h, tag, a), tag, b) == WithList(h, tag, b)
  {
    var lists := h.live.value.lists;
    assert lists[tag := a][tag := b] == lists[tag := b];
  }

  lemma StaleIsListed(m: AccountList, desired: AccountList)
    ensures Stale(m, desired) <= m.Keys
  {
  }

  /** Removing from one inbound: the phase after it, and what is left of the list. */
  lemma RemoveStep(h: Host, job: Job, todo: seq<string>, desired: AccountList, r: TagReply)
    requires todo != [] && HasList(h, todo[0]) && DesiredAccounts(job.config, todo[0]) == Some(desired)
    ensures var m := h.live.value.lists[todo[0]];
            var n := RemovePhase(h, job, todo, Stale(m, desired), Additions(m, desired), r.removal);
            && n.0 == WithList(h, todo[0], Trimmed(m, desired, r.removal))
            && n.1 == if RemovalOk(m, desired, r.removal) then Adding(job, todo, Additions(m, desired))
                      else NeedsRestart(job)
  {
    var m := h.live.value.lists[todo[0]];
    SameList(h, todo[0]);
    StaleIsListed(m, desired);
    hide Additions, DesiredAccounts, WithList;
    var stale := Stale(m, desired);
    hide Stale;
    assert stale * r.removal.acted * m.Keys == stale * r.removal.acted;
    if stale == {} {
      assert m - stale * r.removal.acted == m;
    }
  }

  lemma AddStep(h: Host, job: Job, todo: seq<string>, m: AccountList, desired: AccountList, r: TagReply)
    requires todo != [] && HasList(h, todo[0]) && DesiredAccounts(job.config, todo[0]) == Some(desired)
    ensures var trimmed := h.live.value.lists[todo[0]];
            var n := AddPhase(h, job, todo, Additions(m, desired), r.addition);
            && n.0 == WithList(h, todo[0], Grown(m, trimmed, desired, r.addition))
            && n.1 == if AdditionOk(m, trimmed, desired, r.addition) then Syncing(job, todo[1..]) else NeedsRestart(job)
  {
    hide Additions, DesiredAccounts, WithList;
    var trimmed := h.live.value.lists[todo[0]];
    SameList(h, todo[0]);
    var additions := Additions(m, desired);
    if additions == {} {
      assert Accepted(trimmed, additions, r.addition) == {};
      assert Grown(m, trimmed, desired, r.addition) == trimmed;
    }
  }

  /** The three calls on one inbound are its reconciliation. */
  lemma AloneTag(
      h: Host, job: Job, todo: seq<string>, desired: AccountList, d: Deployment, accepts: Json -> bool, env: Env)
    requires todo != [] && HasList(h, todo[0]) && DesiredAccounts(job.config, todo[0]) == Some(desired)
    ensures var t := SyncTag(h.live.value.lists[todo[0]], desired, env.replies.For(todo[0]));
            Alone(h, Syncing(job, todo), d, accepts, env) ==
            Alone(WithList(h, todo[0], t.after),
                  if t.ok then Syncing(job, todo[1..]) else NeedsRestart(job), d, accepts, env)
  {
    hide Alone, DesiredAccounts, Stale, Additions, Trimmed, Grown, RemovalOk, AdditionOk, RemovePhase, AddPhase,
      WithList;
    var m, r := h.live.value.lists[todo[0]], env.replies.For(todo[0]);
    AloneSteps(h, Syncing(job, todo), d, accepts, env);
    SameList(h, todo[0]);
    if r.answered {
      RemoveStep(h, job, todo, desired, r);
      AloneSteps(h, Removing(job, todo, Stale(m, desired), Additions(m, desired)), d, accepts, env);
      var trimmed := Trimmed(m, desired, r.removal);
      var g := WithList(h, todo[0], trimmed);
      ReadList(h, todo[0], trimmed);
      if RemovalOk(m, desired, r.removal) {
        AddStep(g, job, todo, m, desired, r);
        AloneSteps(g, Adding(job, todo, Additions(m, desired)), d, accepts, env);
        ListTwice(h, todo[0], trimmed, Grown(m, trimmed, desired, r.addition));
      }
    }
  }

  lemma ReadList(h: Host, tag: string, list: AccountList)
    requires h.live.Some?
    ensures HasList(WithList(h, tag, list), tag) && WithList(h, tag, list).live.value.lists[tag] == list
    ensures WithList(h, tag, list).live.value == h.live.value.(lists := h.live.value.lists[tag := list])
    ensures WithList(h, tag, list) == h.(live := Some(h.live.value.(lists := h.live.value.lists[tag := list])))
  {
  }

  /** The loop over inbounds, call by call, is the sync. */
  lemma {:induction false} AloneSync(
      h: Host, job: Job, todo: seq<string>, d: Deployment, accepts: Json -> bool, env: Env)
    requires h.live.Some?
    ensures var res := SyncTags(h.live.value, job.config, todo, env.replies);
            var g := h.(live := Some(res.live));
            Alone(h, Syncing(job, todo), d, accepts, env) ==
            if res.ok then (g, Applied(true, Api, false, false, false))
            else Alone(g, NeedsRestart(job), d, accepts, env)
    decreases |todo|
  {
    hide Alone, DesiredAccounts, SyncTag, WithList;
    AloneSteps(h, Syncing(job, todo), d, accepts, env);
    if todo == [] {
      AloneEnds(h, job.snap, Applied(true, Api, false, false, false), d, accepts, env);
    } else {
      match DesiredAccounts(job.config, todo[0])
      case None =>
        AloneSync(h, job, todo[1..], d, accepts, env);
      case Some(desired) =>
        if HasList(h, todo[0]) {
          AloneTag(h, job, todo, desired, d, accepts, env);
          var t := SyncTag(h.live.value.lists[todo[0]], desired, env.replies.For(todo[0]));
          ReadList(h, todo[0], t.after);
          if t.ok { AloneSync(WithList(h, todo[0], t.after), job, todo[1..], d, accepts, env); }
        }
    }
  }

  // ----- the whole apply ----------------------------------------------------------------

  lemma AloneFromWrote(h: Host, job: Job, d: Deployment, accepts: Json -> bool, env: Env)
    requires env.probe == h.live.Some? && env.recorded
    ensures var structural := Structural(job.previous, job.config);
            var r := Activate(h, job.config, Tags(d), job.previous, structural, Options(false, true), env);
            Alone(h, Wrote(job), d, accepts, env) == (r.host, r.outcome)
  {
    hide Alone, SyncTags, RestartOrRollBack, Structural;
    AloneSteps(h, Wrote(job), d, accepts, env);
    var n := ReachPhase(h, job, d);
    if n.1.Finished? {
      AloneEnds(h, job.snap, n.1.outcome, d, accepts, env);
    } else if n.1.NeedsRestart? {
      AloneFromRestart(h, job, d, accepts, env);
    } else {
      AloneSync(h, job, Tags(d), d, accepts, env);
      SyncHostIs(h, job.config, Tags(d), env.replies);
      hide SyncHost;
      AloneFromRestart(SyncHost(h, job.config, Tags(d), env.replies).host, job, d, accepts, env);
    }
  }

  /** The step-by-step apply refines the one-call `apply_configuration`. */
  lemma AloneIsApply(h: Host, snap: Snapshot, d: Deployment, accepts: Json -> bool, env: Env)
    requires env.probe == h.live.Some?
    ensures var r := Apply(h, Rendered(d, snap.users), Tags(d), accepts, Options(false, true), env);
            Alone(h, Locked(snap), d, accepts, env) == (r.host, r.outcome)
  {
    hide Alone, WriteConfig, Activate, Rendered, Skeleton, Signable;
    AloneSteps(h, Locked(snap), d, accepts, env);
    var n := InstallPhase(h, snap, d, accepts, env.write);
    if n.1.Wrote? {
      WriteFiles(h, n.1.job.config, env.write);
      if env.recorded {
        AloneFromWrote(n.0, n.1.job, d, accepts, env);
      } else {
        AloneSteps(n.0, n.1, d, accepts, env);
        AloneEnds(n.0, snap, Raised, d, accepts, env);
      }
    } else {
      AloneEnds(n.0, snap, n.1.outcome, d, accepts, env);
    }
  }
}
