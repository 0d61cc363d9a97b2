/** Account operations and the expiry sweep, on the table and the host in place. */
module Service {
  import opened Prelude
  import opened Json
  import opened Accounts
  import opened Rendering
  import opened LiveXray
  import opened Pipeline
  import opened Gateway
  import opened Reconciliation

  class AccountService {
    const deployment: Deployment
    const table: AccountTable
    const host: XrayHost
    ghost var asOf: int

    ghost function View(): World
      reads this, table, host
    {
      World(table.rows, table.nextId, host.State(), asOf)
    }

    constructor (deployment: Deployment, table: AccountTable, host: XrayHost, asOf: int)
      ensures this.deployment == deployment && this.table == table && this.host == host && this.asOf == asOf
    {
      this.deployment, this.table, this.host, this.asOf := deployment, table, host, asOf;
    }

    method Sync(readAt: int, force: bool, accepts: Json -> bool, env: Env) returns (out: Outcome)
      modifies `asOf, host
      ensures Done(View(), Some(out)) == SyncWorld(old(View()), deployment, readAt, force, accepts, env)
    {
      hide Apply, Render;
      var rendered := Rendered(deployment, ActiveUsers(table.rows, readAt));
      out := host.ApplyConfiguration(rendered, ManagedTags(deployment.settings), accepts, Options(force, true), env);
      asOf := readAt;
    }

    /** `create_account`, `delete_account`, `set_account_enabled`, `renew_account` and the others. */
    method Perform(change: Change, at: int, readAt: int, accepts: Json -> bool, env: Env)
      returns (error: Option<UserError>, applied: Option<Outcome>)
      requires table.Valid()
      modifies `asOf, table, host
      ensures table.Valid()
      ensures Done(View(), applied) == Do(old(View()), Operate(change, at, readAt, env), deployment, accepts)
      ensures error.Some? <==> Mutate(old(table.rows), old(table.nextId), change, at).Failure?
    {
      hide Mutate, SyncWorld;
      var r := table.Change(change, at);
      if r.Failure? { return Some(r.error), None; }
      if change.EditUser? && change.edit.UpdateNotes? { return None, None; }
      var out := Sync(readAt, false, accepts, env);
      return None, Some(out);
    }

    /** One sweep: `expired` counts the accounts it disabled. */
    method RunExpiryCycle(at: int, readAt: int, accepts: Json -> bool, env: Env)
      returns (expired: nat, applied: Option<Outcome>)
      requires table.Valid()
      modifies `asOf, table, host
      ensures table.Valid()
      ensures Done(View(), applied) == Do(old(View()), Sweep(at, readAt, env), deployment, accepts)
      ensures expired == |LapsedUsers(old(table.rows), at)|
    {
      hide SyncWorld;
      var disabled := table.DisableExpiredUsers(at);
      if disabled == [] {
        NothingLapsed(old(table.rows), at);
        asOf := at;
        return 0, None;
      }
      var out := Sync(readAt, false, accepts, env);
      return |disabled|, Some(out);
    }
  }

  lemma NothingLapsed(rows: Rows, now: int)
    requires LapsedUsers(rows, now) == []
    ensures DisableExpired(rows, now) == rows
  {
    LapsedNone(rows, now);
  }
}
