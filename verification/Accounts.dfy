/**
 The account table (app/models.py): rows, the predicates on them, and every
 mutation as a function from the old rows to the new ones, plus the class whose
 methods perform those mutations in place. Time is in whole seconds.
 */
module Accounts {
  import opened Prelude
  import opened Text

  datatype User = User(
    id: nat, username: string, uuid: string, expiresAt: Option<int>,
    enabled: bool, flow: string, notes: string, updatedAt: int)
  {
    predicate IsExpired(now: int) {
      expiresAt.Some? && expiresAt.value <= now
    }

    predicate IsActive(now: int) {
      enabled && !IsExpired(now)
    }

    function Status(now: int): Status {
      if IsExpired(now) then Expired else if !enabled then Disabled else Active
    }

    function Email(): string {
      username + "@railgate"
    }
  }

  datatype Status = Active | Disabled | Expired

  datatype UserError =
    | InvalidUsername | NotesTooLong | AlreadyExists | NoSuchAccount | AccountExpired
    | NoExpiryGiven | ConstraintViolated

  const MAX_NOTES_LENGTH := 500
  const DAY := 86400
  const VISION := "xtls-rprx-vision"

  type Rows = seq<User>

  // ----- invariants the schema enforces ------------------------------------

  ghost predicate Distinct(rows: Rows) {
    forall i, j | 0 <= i < j < |rows| ::
      && rows[i].id != rows[j].id && rows[i].uuid != rows[j].uuid
      && Lower(rows[i].username) != Lower(rows[j].username)
  }

  ghost predicate Table(rows: Rows, nextId: nat) {
    Distinct(rows) && forall i | 0 <= i < |rows| :: rows[i].id < nextId
  }

  // ----- queries -----------------------------------------------------------

  function ActiveUsers(rows: Rows, now: int): Rows {
    if rows == [] then []
    else (if rows[0].IsActive(now) then [rows[0]] else []) + ActiveUsers(rows[1..], now)
  }

  function Count(rows: Rows, status: Status, now: int): nat {
    if rows == [] then 0
    else (if rows[0].Status(now) == status then 1 else 0) + Count(rows[1..], status, now)
  }

  /** `user_stats` partitions the accounts, and "active" counts what Xray is given. */
  lemma {:induction false} StatsPartition(rows: Rows, now: int)
    ensures Count(rows, Active, now) + Count(rows, Disabled, now) + Count(rows, Expired, now) == |rows|
    ensures Count(rows, Active, now) == |ActiveUsers(rows, now)|
  {
    if rows != [] { StatsPartition(rows[1..], now); }
  }

  lemma {:induction false} ActiveMembers(rows: Rows, now: int, u: User)
    ensures u in ActiveUsers(rows, now) <==> u in rows && u.IsActive(now)
  {
    if rows != [] {
      ActiveMembers(rows[1..], now, u);
      assert u in rows <==> u == rows[0] || u in rows[1..];
    }
  }

  lemma {:induction false} ActiveDistinct(rows: Rows, now: int)
    requires Distinct(rows)
    ensures Distinct(ActiveUsers(rows, now))
  {
    if rows != [] {
      ActiveDistinct(rows[1..], now);
      var rest := ActiveUsers(rows[1..], now);
      forall i | 0 <= i < |rest|
        ensures rest[i].id != rows[0].id && rest[i].uuid != rows[0].uuid
        ensures Lower(rest[i].username) != Lower(rows[0].username)
      {
        ActiveMembers(rows[1..], now, rest[i]);
      }
    }
  }

  function IndexOf(rows: Rows, id: nat): (i: nat)
    ensures i <= |rows| && (i < |rows| ==> rows[i].id == id)
    ensures forall k | 0 <= k < i :: rows[k].id != id
  {
    if rows == [] || rows[0].id == id then 0 else 1 + IndexOf(rows[1..], id)
  }

  // ----- validation --------------------------------------------------------

  predicate IsAlphanumeric(c: char) {
    'a' <= c <= 'z' || 'A' <= c <= 'Z' || '0' <= c <= '9'
  }

  predicate ValidUsername(s: string) {
    && 2 <= |s| <= 32
    && IsAlphanumeric(s[0])
    && forall i | 1 <= i < |s| :: IsAlphanumeric(s[i]) || s[i] in "_.-"
  }

  /** The `COLLATE NOCASE` lookup that precedes an insert. */
  predicate NameTaken(rows: Rows, name: string) {
    exists i | 0 <= i < |rows| :: Lower(rows[i].username) == Lower(name)
  }

  predicate UuidTaken(rows: Rows, uuid: string) {
    exists i | 0 <= i < |rows| :: rows[i].uuid == uuid
  }

  // ----- mutations ---------------------------------------------------------

  datatype Change =
    | CreateUser(name: string, uuid: string, expiry: Option<int>, notes: string)
    | DeleteUser(id: nat)
    | EditUser(id: nat, edit: Edit)

  datatype Edit =
    | SetEnabled(enabled: bool)
    | Renew(term: Term)
    | RegenerateUuid(uuid: string)
    | UpdateNotes(notes: string)

  /** `--expire` (resolved to an instant or to "never"), `--days`, or neither. */
  datatype Term = Until(expiry: Option<int>) | Days(days: int) | Unspecified

  function RenewedExpiry(u: User, term: Term, now: int): Option<int>
    requires !term.Unspecified?
  {
    match term
    case Until(e) => e
    case Days(d) =>
      if d <= 0 then None
      else Some((if u.expiresAt.Some? && !u.IsExpired(now) then u.expiresAt.value else now) + d * DAY)
  }

  /** The row after `set_expiry`: renewing re-enables unless the new expiry has passed. */
  function WithExpiry(u: User, expiry: Option<int>, now: int): User {
    var stillValid := expiry.None? || expiry.value > now;
    u.(expiresAt := expiry, enabled := u.enabled || stillValid, updatedAt := now)
  }

  function EditRow(rows: Rows, u: User, e: Edit, now: int): Result<User, UserError> {
    match e
    case SetEnabled(enabled) =>
      if enabled && u.IsExpired(now) then Failure(AccountExpired)
      else Success(u.(enabled := enabled, updatedAt := now))
    case Renew(term) =>
      if term.Unspecified? then Failure(NoExpiryGiven)
      else Success(WithExpiry(u, RenewedExpiry(u, term, now), now))
    case RegenerateUuid(uuid) =>
      if UuidTaken(rows, uuid) then Failure(ConstraintViolated)
      else Success(u.(uuid := uuid, updatedAt := now))
    case UpdateNotes(notes) =>
      Success(u.(notes := notes, updatedAt := now))
  }

  function Mutate(rows: Rows, nextId: nat, c: Change, now: int): Result<Rows, UserError> {
    match c
    case CreateUser(name, uuid, expiry, notes) =>
      if !ValidUsername(name) then Failure(InvalidUsername)
      else if |notes| > MAX_NOTES_LENGTH then Failure(NotesTooLong)
      else if NameTaken(rows, name) then Failure(AlreadyExists)
      else if UuidTaken(rows, uuid) then Failure(ConstraintViolated)
      else Success(rows + [User(nextId, name, uuid, expiry, true, VISION, notes, now)])
    case DeleteUser(id) =>
      var i := IndexOf(rows, id);
      if i == |rows| then Failure(NoSuchAccount) else Success(rows[..i] + rows[i + 1..])
    case EditUser(id, edit) =>
      if edit.UpdateNotes? && |edit.notes| > MAX_NOTES_LENGTH then Failure(NotesTooLong)
      else
        var i := IndexOf(rows, id);
        if i == |rows| then Failure(NoSuchAccount)
        else
          match EditRow(rows, rows[i], edit, now)
          case Failure(e) => Failure(e)
          case Success(u) => Success(rows[i := u])
  }

  function NextId(nextId: nat, c: Change, r: Result<Rows, UserError>): nat {
    if c.CreateUser? && r.Success? then nextId + 1 else nextId
  }

  lemma ReplaceKeepsTable(rows: Rows, nextId: nat, i: nat, u: User)
    requires Table(rows, nextId) && i < |rows|
    requires u.id == rows[i].id && u.username == rows[i].username
    requires u.uuid == rows[i].uuid || !UuidTaken(rows, u.uuid)
    ensures Table(rows[i := u], nextId)
  {
    assert u.uuid != rows[i].uuid ==> forall k | 0 <= k < |rows| :: rows[k].uuid != u.uuid;
  }

  lemma RemoveKeepsTable(rows: Rows, nextId: nat, i: nat)
    requires Table(rows, nextId) && i < |rows|
    ensures Table(rows[..i] + rows[i + 1..], nextId)
  {
    var after := rows[..i] + rows[i + 1..];
    assert forall k | 0 <= k < |after| :: after[k] == if k < i then rows[k] else rows[k + 1];
  }

  /** Every mutation keeps ids, UUIDs and, up to case, usernames unique. */
  lemma MutateKeepsTable(rows: Rows, nextId: nat, c: Change, now: int)
    requires Table(rows, nextId)
    ensures var r := Mutate(rows, nextId, c, now);
            r.Success? ==> Table(r.value, NextId(nextId, c, r))
  {
    var r := Mutate(rows, nextId, c, now);
    if r.Success? {
      match c
      case CreateUser(name, uuid, _, _) =>
        hide ValidUsername;
        assert forall k | 0 <= k < |rows| :: rows[k].uuid != uuid;
        assert forall k | 0 <= k < |rows| :: Lower(rows[k].username) != Lower(name);
      case DeleteUser(id) =>
        RemoveKeepsTable(rows, nextId, IndexOf(rows, id));
      case EditUser(id, edit) =>
        var i := IndexOf(rows, id);
        ReplaceKeepsTable(rows, nextId, i, EditRow(rows, rows[i], edit, now).value);
    }
  }

  /** What a successful edit of one account means for that account. */
  ghost predicate EditMeans(before: User, e: Edit, now: int, after: User) {
    && after.id == before.id && after.username == before.username && after.flow == before.flow
    && after.updatedAt == now
    && (e.UpdateNotes? ==> after.notes == e.notes) && (!e.UpdateNotes? ==> after.notes == before.notes)
    && match e
       case SetEnabled(enabled) =>
         && after.uuid == before.uuid && after.expiresAt == before.expiresAt && after.enabled == enabled
         && (after.IsActive(now) <==> enabled && !before.IsExpired(now))
       case Renew(term) =>
         && after.uuid == before.uuid
         && (term == Until(None) || (term.Days? && term.days <= 0) ==> forall t: int :: after.IsActive(t))
         && (term.Until? ==> after.expiresAt == term.expiry)
         && (term.Until? && term.expiry.Some? && term.expiry.value <= now ==> after.enabled == before.enabled)
         && (term.Until? && term.expiry.Some? ==>
               forall t: int | t >= now :: after.IsActive(t) <==> t < term.expiry.value)
         && (term.Days? && term.days > 0 ==>
               forall t: int :: after.IsActive(t) <==>
                 t < term.days * 86400 +
                     (if before.expiresAt.Some? && before.expiresAt.value > now then before.expiresAt.value else now))
       case RegenerateUuid(uuid) =>
         after.uuid == uuid && forall t: int :: after.Status(t) == before.Status(t)
       case UpdateNotes(_) =>
         after.uuid == before.uuid && forall t: int :: after.Status(t) == before.Status(t)
  }

  /** What a successful mutation leaves behind. */
  ghost predicate Effect(rows: Rows, c: Change, now: int, after: Rows) {
    match c
    case CreateUser(name, uuid, expiry, notes) =>
      && |after| == |rows| + 1 && after[..|rows|] == rows
      && var u := after[|rows|];
         && u.username == name && u.uuid == uuid && u.flow == VISION && u.notes == notes
         && forall t: int :: u.IsActive(t) <==> expiry.None? || t < expiry.value
    case DeleteUser(id) =>
      |after| == |rows| - 1 && forall u :: u in after <==> u in rows && u.id != id
    case EditUser(id, edit) =>
      && |after| == |rows|
      && forall k | 0 <= k < |rows| ::
           if rows[k].id == id then EditMeans(rows[k], edit, now, after[k]) else after[k] == rows[k]
  }

  lemma DeleteEffect(rows: Rows, id: nat, i: nat)
    requires Distinct(rows) && i < |rows| && rows[i].id == id
    ensures var after := rows[..i] + rows[i + 1..];
            |after| == |rows| - 1 && forall u :: u in after <==> u in rows && u.id != id
  {
    var after := rows[..i] + rows[i + 1..];
    assert forall k | 0 <= k < |after| :: after[k] == if k < i then rows[k] else rows[k + 1];
    forall u ensures u in after <==> u in rows && u.id != id {
      if u in rows && u.id != id {
        var k :| 0 <= k < |rows| && rows[k] == u;
        assert after[if k < i then k else k - 1] == u;
      }
    }
  }

  lemma EditRowMeans(rows: Rows, u: User, e: Edit, now: int)
    requires EditRow(rows, u, e, now).Success?
    ensures EditMeans(u, e, now, EditRow(rows, u, e, now).value)
  {
  }

  /** Each mutation changes the one account it names, in the way its caller asked for. */
  lemma MutateEffect(rows: Rows, nextId: nat, c: Change, now: int)
    requires Table(rows, nextId)
    requires Mutate(rows, nextId, c, now).Success?
    ensures Effect(rows, c, now, Mutate(rows, nextId, c, now).value)
  {
    hide EditRow, EditMeans, ValidUsername, NameTaken;
    match c
    case CreateUser(_, _, _, _) =>
    case DeleteUser(id) =>
      DeleteEffect(rows, id, IndexOf(rows, id));
    case EditUser(id, edit) =>
      EditRowMeans(rows, rows[IndexOf(rows, id)], edit, now);
  }

  // ----- exactly when a mutation is made, and why not -----------------------

  /** The pattern of `validate_username`, by character codes. */
  ghost predicate NameFits(name: string) {
    && 2 <= |name| <= 32 && name[0] !in "_.-"
    && forall c | c in name ::
         c in "_.-" || 48 <= c as int <= 57 || 65 <= c as int <= 90 || 97 <= c as int <= 122
  }

  ghost predicate HasId(rows: Rows, id: nat) {
    exists u :: u in rows && u.id == id
  }

  ghost predicate HasUuid(rows: Rows, uuid: string) {
    exists u :: u in rows && u.uuid == uuid
  }

  ghost predicate HasName(rows: Rows, name: string) {
    exists u :: u in rows && SameUpToCase(u.username, name)
  }

  /** What the caller can check before asking for a mutation. */
  ghost predicate Allowed(rows: Rows, c: Change, now: int) {
    match c
    case CreateUser(name, uuid, _, notes) =>
      NameFits(name) && |notes| <= 500 && !HasName(rows, name) && !HasUuid(rows, uuid)
    case DeleteUser(id) => HasId(rows, id)
    case EditUser(id, SetEnabled(enabled)) =>
      exists u :: u in rows && u.id == id && (enabled ==> u.expiresAt.None? || u.expiresAt.value > now)
    case EditUser(id, Renew(term)) => HasId(rows, id) && term != Unspecified
    case EditUser(id, RegenerateUuid(uuid)) => HasId(rows, id) && !HasUuid(rows, uuid)
    case EditUser(id, UpdateNotes(notes)) => HasId(rows, id) && |notes| <= 500
  }

  /** The first of the reasons, in the order the code finds them, why a mutation is refused. */
  ghost predicate RefusedBecause(rows: Rows, c: Change, now: int, why: UserError) {
    match c
    case CreateUser(name, uuid, _, notes) =>
      (match why
       case InvalidUsername => !NameFits(name)
       case NotesTooLong => NameFits(name) && |notes| > 500
       case AlreadyExists => NameFits(name) && |notes| <= 500 && HasName(rows, name)
       case ConstraintViolated => NameFits(name) && |notes| <= 500 && !HasName(rows, name) && HasUuid(rows, uuid)
       case _ => false)
    case DeleteUser(id) => why.NoSuchAccount? && !HasId(rows, id)
    case EditUser(id, UpdateNotes(notes)) =>
      (why.NotesTooLong? && |notes| > 500) || (why.NoSuchAccount? && |notes| <= 500 && !HasId(rows, id))
    case EditUser(id, SetEnabled(enabled)) =>
      || (why.NoSuchAccount? && !HasId(rows, id))
      || (why.AccountExpired? && enabled
          && exists u :: u in rows && u.id == id && u.expiresAt.Some? && u.expiresAt.value <= now)
    case EditUser(id, Renew(term)) =>
      (why.NoSuchAccount? && !HasId(rows, id)) || (why.NoExpiryGiven? && HasId(rows, id) && term == Unspecified)
    case EditUser(id, RegenerateUuid(uuid)) =>
      (why.NoSuchAccount? && !HasId(rows, id)) || (why.ConstraintViolated? && HasId(rows, id) && HasUuid(rows, uuid))
  }

  lemma NameFitsIff(name: string)
    ensures ValidUsername(name) <==> NameFits(name)
  {
    if |name| >= 2 {
      assert name[0] in name;
      assert forall c | c in name :: exists i :: 0 <= i < |name| && name[i] == c;
    }
  }

  lemma NameTakenIff(rows: Rows, name: string)
    ensures NameTaken(rows, name) <==> HasName(rows, name)
  {
    forall i | 0 <= i < |rows|
      ensures Lower(rows[i].username) == Lower(name) <==> SameUpToCase(rows[i].username, name)
    {
      LowerSame(rows[i].username, name);
    }
    hide SameUpToCase, Lower;
    if HasName(rows, name) {
      var u :| u in rows && SameUpToCase(u.username, name);
      var i :| 0 <= i < |rows| && rows[i] == u;
    }
  }

  lemma UuidTakenIff(rows: Rows, uuid: string)
    ensures UuidTaken(rows, uuid) <==> HasUuid(rows, uuid)
  {
    if HasUuid(rows, uuid) {
      var u :| u in rows && u.uuid == uuid;
      var i :| 0 <= i < |rows| && rows[i] == u;
    }
  }

  lemma FoundIff(rows: Rows, id: nat)
    ensures IndexOf(rows, id) < |rows| <==> HasId(rows, id)
  {
    if IndexOf(rows, id) < |rows| { assert rows[IndexOf(rows, id)] in rows; }
  }

  /** The row found is the only one of that id. */
  lemma OnlyRow(rows: Rows, id: nat, u: User)
    requires Distinct(rows) && u in rows && u.id == id
    ensures IndexOf(rows, id) < |rows| && rows[IndexOf(rows, id)] == u
  {
    var i :| 0 <= i < |rows| && rows[i] == u;
  }

  /** A mutation is refused exactly for the reason given, and is made exactly when there is none. */
  lemma MutateRefusedIff(rows: Rows, nextId: nat, c: Change, now: int, why: UserError)
    requires Table(rows, nextId)
    ensures Mutate(rows, nextId, c, now) == Failure(why) <==> RefusedBecause(rows, c, now, why)
  {
    hide ValidUsername, NameFits, NameTaken, HasName, UuidTaken, HasUuid, HasId, Distinct, IndexOf;
    match c
    case CreateUser(name, uuid, _, _) =>
      NameFitsIff(name);
      NameTakenIff(rows, name);
      UuidTakenIff(rows, uuid);
    case DeleteUser(id) => FoundIff(rows, id);
    case EditUser(id, edit) =>
      FoundIff(rows, id);
      match edit
      case SetEnabled(_) => ExpiredRow(rows, id, now);
      case RegenerateUuid(uuid) => UuidTakenIff(rows, uuid);
      case _ =>
  }

  /** A mutation is made exactly when it is allowed. */
  lemma MutateSucceedsIff(rows: Rows, nextId: nat, c: Change, now: int)
    requires Table(rows, nextId)
    ensures Mutate(rows, nextId, c, now).Success? <==> Allowed(rows, c, now)
  {
    hide ValidUsername, NameFits, NameTaken, HasName, UuidTaken, HasUuid, HasId, Distinct, IndexOf;
    match c
    case CreateUser(name, uuid, _, _) =>
      NameFitsIff(name);
      NameTakenIff(rows, name);
      UuidTakenIff(rows, uuid);
    case DeleteUser(id) => FoundIff(rows, id);
    case EditUser(id, edit) =>
      FoundIff(rows, id);
      match edit
      case SetEnabled(enabled) => UnexpiredRow(rows, id, now, enabled);
      case RegenerateUuid(uuid) => UuidTakenIff(rows, uuid);
      case _ =>
  }

  lemma UnexpiredRow(rows: Rows, id: nat, now: int, enabled: bool)
    requires Distinct(rows)
    ensures (exists u :: u in rows && u.id == id && (enabled ==> u.expiresAt.None? || u.expiresAt.value > now)) <==>
            IndexOf(rows, id) < |rows| && (enabled ==> !rows[IndexOf(rows, id)].IsExpired(now))
  {
    hide Distinct, IndexOf;
    if u :| u in rows && u.id == id && (enabled ==> u.expiresAt.None? || u.expiresAt.value > now) {
      OnlyRow(rows, id, u);
    }
    if IndexOf(rows, id) < |rows| { assert rows[IndexOf(rows, id)] in rows; }
  }

  lemma ExpiredRow(rows: Rows, id: nat, now: int)
    requires Distinct(rows)
    ensures (exists u :: u in rows && u.id == id && u.expiresAt.Some? && u.expiresAt.value <= now) <==>
            IndexOf(rows, id) < |rows| && rows[IndexOf(rows, id)].IsExpired(now)
  {
    hide Distinct, IndexOf;
    if u :| u in rows && u.id == id && u.expiresAt.Some? && u.expiresAt.value <= now {
      OnlyRow(rows, id, u);
    }
    if IndexOf(rows, id) < |rows| { assert rows[IndexOf(rows, id)] in rows; }
  }

  // ----- the expiry sweep on the table -------------------------------------

  predicate Lapsed(u: User, now: int) {
    u.enabled && u.IsExpired(now)
  }

  function Swept(u: User, now: int): User {
    if Lapsed(u, now) then u.(enabled := false, updatedAt := now) else u
  }

  function DisableExpired(rows: Rows, now: int): (after: Rows)
    ensures |after| == |rows|
  {
    seq(|rows|, i requires 0 <= i < |rows| => Swept(rows[i], now))
  }

  function LapsedUsers(rows: Rows, now: int): Rows {
    if rows == [] then []
    else LapsedUsers(rows[..|rows| - 1], now)
         + (if Lapsed(rows[|rows| - 1], now) then [Swept(rows[|rows| - 1], now)] else [])
  }

  /** Afterwards the lapsed accounts are disabled and nothing else about any account has changed. */
  lemma SweepDisablesLapsed(rows: Rows, now: int, i: nat)
    requires i < |rows|
    ensures var before, after := rows[i], DisableExpired(rows, now)[i];
            && after.enabled == (before.enabled && (before.expiresAt.None? || before.expiresAt.value > now))
            && after == before.(enabled := after.enabled, updatedAt := after.updatedAt)
            && (after.enabled == before.enabled ==> after == before)
            && (after.enabled != before.enabled ==> after.updatedAt == now)
  {
  }

  /** The accounts reported are exactly those that were switched off, each as it is now. */
  lemma {:induction false} LapsedAreReported(rows: Rows, now: int, u: User)
    ensures u in LapsedUsers(rows, now) <==>
            exists i :: 0 <= i < |rows| && DisableExpired(rows, now)[i] == u && rows[i].enabled && !u.enabled
  {
    if rows != [] {
      var n := |rows| - 1;
      LapsedAreReported(rows[..n], now, u);
      forall i | 0 <= i < n ensures DisableExpired(rows[..n], now)[i] == DisableExpired(rows, now)[i] {
      }
      forall i | 0 <= i < |rows| ensures DisableExpired(rows, now)[i] == Swept(rows[i], now) {
      }
      if u in LapsedUsers(rows[..n], now) {
        var i :| 0 <= i < n && DisableExpired(rows[..n], now)[i] == u && rows[..n][i].enabled && !u.enabled;
        assert DisableExpired(rows, now)[i] == u && rows[i].enabled;
      }
    }
  }

  /** An account is expired, disabled or active; a sweep changes the status of none, then or later. */
  lemma StatusMeans(rows: Rows, now: int, later: int, i: nat)
    requires i < |rows| && now <= later
    ensures var u := rows[i];
            && (u.Status(later).Expired? <==> u.expiresAt.Some? && u.expiresAt.value <= later)
            && (u.Status(later).Active? <==> u.enabled && (u.expiresAt.None? || u.expiresAt.value > later))
            && DisableExpired(rows, now)[i].Status(later) == u.Status(later)
  {
  }

  lemma DisableKeepsTable(rows: Rows, nextId: nat, now: int)
    requires Table(rows, nextId)
    ensures Table(DisableExpired(rows, now), nextId)
  {
  }

  lemma {:induction false} LapsedNone(rows: Rows, now: int)
    ensures LapsedUsers(rows, now) == [] <==> forall i | 0 <= i < |rows| :: !Lapsed(rows[i], now)
  {
    if rows != [] { LapsedNone(rows[..|rows| - 1], now); }
  }

  /** Sweeping never changes who is active at that instant, it only records it. */
  lemma {:induction false} SweepPreservesActive(rows: Rows, now: int, later: int)
    requires now <= later
    ensures ActiveUsers(DisableExpired(rows, now), later) == ActiveUsers(rows, later)
  {
    if rows != [] {
      var d := DisableExpired(rows, now);
      SweepPreservesActive(rows[1..], now, later);
      assert d[1..] == DisableExpired(rows[1..], now);
    }
  }

  /**
   When no enabled account has expired at `now`, the active list is the one of
   any earlier moment: the reason a sweep that finds nothing may skip the apply.
   */
  lemma {:induction false} QuietSweep(rows: Rows, earlier: int, now: int)
    requires earlier <= now && forall i | 0 <= i < |rows| :: !Lapsed(rows[i], now)
    ensures ActiveUsers(rows, now) == ActiveUsers(rows, earlier)
  {
    if rows != [] { QuietSweep(rows[1..], earlier, now); }
  }

  // ----- the table, updated in place ---------------------------------------

  class AccountTable {
    var rows: Rows
    var nextId: nat

    ghost predicate Valid()
      reads this
    {
      Table(rows, nextId)
    }

    constructor ()
      ensures Valid() && rows == [] && nextId == 0
    {
      rows, nextId := [], 0;
    }

    method Change(c: Change, now: int) returns (r: Result<Rows, UserError>)
      requires Valid()
      modifies this
      ensures Valid()
      ensures r == Mutate(old(rows), old(nextId), c, now)
      ensures rows == if r.Success? then r.value else old(rows)
      ensures nextId == NextId(old(nextId), c, r)
    {
      r := Mutate(rows, nextId, c, now);
      MutateKeepsTable(rows, nextId, c, now);
      nextId := NextId(nextId, c, r);
      if r.Success? { rows := r.value; }
    }

    /** One transaction per lapsed account, in listing order. */
    method DisableExpiredUsers(now: int) returns (changed: Rows)
      requires Valid()
      modifies `rows
      ensures Valid()
      ensures rows == DisableExpired(old(rows), now)
      ensures changed == LapsedUsers(old(rows), now)
    {
      changed := [];
      var listed := rows;
      for k := 0 to |listed|
        invariant |rows| == |listed|
        invariant forall i | 0 <= i < |rows| :: rows[i] == if i < k then Swept(listed[i], now) else listed[i]
        invariant changed == LapsedUsers(listed[..k], now)
      {
        assert listed[..k + 1][..k] == listed[..k];
        if listed[k].enabled && listed[k].IsExpired(now) {
          rows := rows[k := rows[k].(enabled := false, updatedAt := now)];
          changed := changed + [rows[k]];
        }
      }
      assert listed[..|listed|] == listed;
    }
  }
}
