/** Backup and restore as they run, over files that are replaced one by one. */
module BackupStore {
  import opened Prelude
  import B = Backup

  lemma OverwrittenNext(live: B.Live, done: seq<B.Member>, m: B.Member)
    ensures B.OverwrittenAll(live, done + [m]) == B.Overwritten(B.OverwrittenAll(live, done), m)
  {
    assert (done + [m])[..|done|] == done;
  }

  lemma KeyWritesUnfold(members: seq<B.Member>)
    ensures B.Writes(members) == B.Piece(B.DB_NAME, B.Lookup(members, B.DB_NAME)) + B.KeyWrites(B.KEY_FILES, members)
    ensures B.KeyWrites([], members) == []
    ensures forall i | 0 <= i < |B.KEY_FILES| ::
      B.KeyWrites(B.KEY_FILES[i..], members)
        == B.Piece(B.KEY_FILES[i], B.Lookup(members, B.KEY_FILES[i])) + B.KeyWrites(B.KEY_FILES[i + 1..], members)
    ensures forall live :: B.OverwrittenAll(live, []) == live
  {
    assert forall i | 0 <= i < |B.KEY_FILES| :: B.KEY_FILES[i..][1..] == B.KEY_FILES[i + 1..];
  }

  lemma KeyMembersUnfold(db: B.Content, keys: map<string, B.Content>, manifest: B.Content)
    ensures forall i | 0 <= i < |B.KEY_FILES| ::
      B.KeyMembers(B.KEY_FILES[i..], keys)
        == B.Piece(B.KEY_FILES[i], B.KeyOf(keys, B.KEY_FILES[i])) + B.KeyMembers(B.KEY_FILES[i + 1..], keys)
    ensures B.KeyMembers(B.KEY_FILES[|B.KEY_FILES|..], keys) == [] && B.KEY_FILES[0..] == B.KEY_FILES
    ensures B.BackupMembers(db, keys, manifest)
      == B.Piece(B.MANIFEST_NAME, Some(manifest)) + B.Piece(B.DB_NAME, Some(db)) + B.KeyMembers(B.KEY_FILES, keys)
  {
    assert forall i | 0 <= i < |B.KEY_FILES| :: B.KEY_FILES[i..][1..] == B.KEY_FILES[i + 1..];
  }

  /** `_safe_members`: the members in order, or None when one of them is not expected. */
  method SafeMembers(members: seq<B.Member>) returns (safe: Option<seq<B.Member>>)
    ensures safe == if B.Safe(members) then Some(members) else None
  {
    var accepted: seq<B.Member> := [];
    for i := 0 to |members|
      invariant accepted == members[..i]
      invariant forall k | 0 <= k < i :: B.Expected(members[k])
    {
      if !B.Expected(members[i]) {
        return None;
      }
      accepted := accepted + [members[i]];
    }
    assert accepted == members;
    return Some(accepted);
  }

  /** The staging directory: one file per name, the last member of a name winning. */
  method Stage(members: seq<B.Member>) returns (staged: map<string, B.Content>)
    ensures forall n: string :: B.KeyOf(staged, n) == B.Lookup(members, n)
  {
    staged := map[];
    for i := 0 to |members|
      invariant forall n: string :: B.KeyOf(staged, n) == B.Lookup(members[..i], n)
    {
      ghost var before := staged;
      staged := staged[members[i].name := members[i].content];
      forall n: string ensures B.KeyOf(staged, n) == B.Lookup(members[..i + 1], n) {
        assert members[..i + 1][..i] == members[..i];
        assert B.KeyOf(before, n) == B.Lookup(members[..i], n);
      }
    }
    assert members[..|members|] == members;
  }

  class Vault {
    var db: Option<B.Content>
    var keys: map<string, B.Content>
    var archives: map<string, B.Archive>

    ghost function State(): B.World
      reads this
    {
      B.World(B.Live(db, keys), archives)
    }

    constructor (db: Option<B.Content>, keys: map<string, B.Content>)
      ensures State() == B.World(B.Live(db, keys), map[])
    {
      this.db, this.keys, archives := db, keys, map[];
    }

    /** `create_backup`: key files are staged in order, then everything is archived at once. */
    method CreateBackup(path: string, manifest: B.Content, io: B.BackupIo) returns (ok: bool)
      modifies this`archives
      ensures State() == B.CreateBackup(old(State()), path, manifest, io).world
      ensures ok == B.CreateBackup(old(State()), path, manifest, io).ok
    {
      hide B.KeyMembers, B.BackupMembers, B.Piece, B.KeyOf;
      if db.None? || io.SnapshotFails? {
        return false;
      }
      KeyMembersUnfold(db.value, keys, manifest);
      var head := B.Piece(B.MANIFEST_NAME, Some(manifest)) + B.Piece(B.DB_NAME, db);
      var included: seq<B.Member> := [];
      for i := 0 to |B.KEY_FILES|
        invariant B.KeyMembers(B.KEY_FILES, keys) == included + B.KeyMembers(B.KEY_FILES[i..], keys)
      {
        assert B.KEY_FILES[i..][1..] == B.KEY_FILES[i + 1..];
        included := included + B.Piece(B.KEY_FILES[i], B.KeyOf(keys, B.KEY_FILES[i]));
      }
      if io.ArchiveFails? {
        archives := archives[path := B.Archive.Broken];
        return false;
      }
      assert included == B.KeyMembers(B.KEY_FILES, keys);
      archives := archives[path := B.Archive.Archive(head + included)];
      return true;
    }

    /** Overwrites the live files from the staging directory until done or until a write fails. */
    method Overwrite(ghost members: seq<B.Member>, staged: map<string, B.Content>, survives: nat) returns (ok: bool)
      requires forall n: string :: B.KeyOf(staged, n) == B.Lookup(members, n)
      modifies this`db, this`keys
      ensures ok == (survives >= |B.Writes(members)|)
      ensures var writes := B.Writes(members);
        State() == old(State()).(live :=
          B.OverwrittenAll(old(State().live), if ok then writes else writes[..survives]))
    {
      hide B.Writes, B.KeyWrites, B.OverwrittenAll, B.Lookup;
      KeyWritesUnfold(members);
      ghost var live := B.Live(db, keys);
      ghost var done: seq<B.Member> := [];
      var left := survives;
      assert B.KeyOf(staged, B.DB_NAME) == B.Lookup(members, B.DB_NAME);
      if B.DB_NAME in staged {
        ghost var m := B.Member(B.DB_NAME, true, staged[B.DB_NAME]);
        assert B.Writes(members) == [m] + B.KeyWrites(B.KEY_FILES, members);
        if left == 0 {
          return false;
        }
        db, left := Some(staged[B.DB_NAME]), left - 1;
        OverwrittenNext(live, done, m);
        done := done + [m];
      }
      assert B.Writes(members) == done + B.KeyWrites(B.KEY_FILES, members);
      for i := 0 to |B.KEY_FILES|
        invariant B.Writes(members) == done + B.KeyWrites(B.KEY_FILES[i..], members)
        invariant B.Live(db, keys) == B.OverwrittenAll(live, done)
        invariant left == survives - |done|
      {
        var name := B.KEY_FILES[i];
        assert B.KEY_FILES[i..][0] == name && B.KEY_FILES[i..][1..] == B.KEY_FILES[i + 1..];
        assert B.KeyOf(staged, name) == B.Lookup(members, name);
        if name in staged {
          ghost var m := B.Member(name, true, staged[name]);
          if left == 0 {
            assert B.Writes(members)[..survives] == done;
            return false;
          }
          keys, left := keys[name := staged[name]], left - 1;
          OverwrittenNext(live, done, m);
          done := done + [m];
        }
      }
      assert B.KEY_FILES[3..] == [] && B.KeyWrites([], members) == [];
      assert done == B.Writes(members);
      return true;
    }

    method RestoreBackup(r: B.Request) returns (safety: bool, result: Result<seq<string>, B.RestoreError>)
      modifies this
      ensures B.Restored(State(), safety, result) == B.RestoreBackup(old(State()), r)
    {
      var fault := B.Inspected(B.World(B.Live(db, keys), archives), r);
      if fault.Some? {
        return false, Failure(fault.value);
      }
      if !r.confirm {
        return false, Failure(B.NotConfirmed);
      }
      safety := CreateBackup(r.safetyPath, r.safetyManifest, r.safetyIo);
      if archives[r.path].Broken? {
        return safety, Failure(B.Unreadable);
      }
      var members := archives[r.path].members;
      var safe := SafeMembers(members);
      if safe.None? {
        return safety, Failure(B.UnexpectedMember);
      }
      var staged := Stage(members);
      var ok := Overwrite(members, staged, r.survives);
      result := if ok then Success(B.Names(B.Writes(members))) else Failure(B.WriteFailed);
    }
  }
}
