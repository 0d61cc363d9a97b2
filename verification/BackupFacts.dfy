/** What a restore brings back, what it leaves alone, and how it is undone. */
module BackupFacts {
  import opened Prelude
  import opened Backup

  /** The live files as state `s` over state `w`: what `s` lacked stays as it was in `w`. */
  function Overlaid(s: Live, w: Live): Live {
    Live(s.db, w.keys + (map n | n in s.keys && n in KEY_FILES :: s.keys[n]))
  }

  function ArchiveOf(s: Live, manifest: Content): Archive
    requires s.db.Some?
  {
    Archive(BackupMembers(s.db.value, s.keys, manifest))
  }

  ghost predicate SameKeys(a: map<string, Content>, b: map<string, Content>) {
    forall n: string :: KeyOf(a, n) == KeyOf(b, n)
  }

  lemma SameKeysAreEqual(a: map<string, Content>, b: map<string, Content>)
    requires SameKeys(a, b)
    ensures a == b
  {
    forall n: string ensures n in a <==> n in b {
      assert KeyOf(a, n) == KeyOf(b, n);
    }
    forall n | n in a ensures a[n] == b[n] {
      assert KeyOf(a, n) == KeyOf(b, n);
    }
  }

  predicate OnlyKeyFiles(s: Live) {
    forall n | n in s.keys :: n in KEY_FILES
  }

  lemma OverwritingBrings(s: Live, manifest: Content, w: Live)
    requires s.db.Some? && OnlyKeyFiles(w)
    ensures OverwrittenAll(w, Writes(ArchiveOf(s, manifest).members)) == Overlaid(s, w)
  {
    var members := ArchiveOf(s, manifest).members;
    var after := OverwrittenAll(w, Writes(members));
    forall n: string ensures KeyOf(after.keys, n) == KeyOf(Overlaid(s, w).keys, n) && after.db == s.db {
      KeyAfter(s, manifest, w, n);
    }
    assert SameKeys(after.keys, Overlaid(s, w).keys);
    SameKeysAreEqual(after.keys, Overlaid(s, w).keys);
    assert after.db == s.db by {
      KeyAfter(s, manifest, w, "");
    }
  }

  lemma KeyAfter(s: Live, manifest: Content, w: Live, n: string)
    requires s.db.Some? && OnlyKeyFiles(w)
    ensures var after := OverwrittenAll(w, Writes(ArchiveOf(s, manifest).members));
      after.db == s.db && KeyOf(after.keys, n) == KeyOf(Overlaid(s, w).keys, n)
  {
    var members := ArchiveOf(s, manifest).members;
    BackupHolds(s.db.value, s.keys, manifest, DB_NAME);
    LookupWrites(members, DB_NAME);
    if n == DB_NAME {
      OverwrittenReads(w, Writes(members), "");
      OverwrittenNever(w, Writes(members), n);
    } else {
      BackupHolds(s.db.value, s.keys, manifest, n);
      LookupWrites(members, n);
      OverwrittenReads(w, Writes(members), n);
    }
    hide Writes, OverwrittenAll, BackupMembers, Lookup;
  }

  /** No key file is ever called like the database. */
  lemma {:induction false} OverwrittenNever(live: Live, writes: seq<Member>, n: string)
    requires n == DB_NAME && n !in live.keys
    ensures n !in OverwrittenAll(live, writes).keys
  {
    if writes != [] {
      OverwrittenNever(live, writes[..|writes| - 1], n);
    }
  }

  lemma WritesAreFew(members: seq<Member>)
    ensures |Writes(members)| <= 4
  {
    assert KEY_FILES[1..] == ["reality-public-key", "short-id"];
    assert KEY_FILES[2..] == ["short-id"];
    assert KEY_FILES[1..][1..] == KEY_FILES[2..];
    assert KEY_FILES[2..][1..] == [];
    assert |KeyWrites(KEY_FILES[2..], members)| <= 1;
    assert |KeyWrites(KEY_FILES[1..], members)| <= 2;
  }

  /** The safety copy does not land on the archive being restored. */
  predicate LeavesArchive(w: World, r: Request) {
    r.path != r.safetyPath || w.live.db.None? || r.safetyIo.SnapshotFails?
  }

  /** No live write fails. */
  predicate Undisturbed(r: Request) {
    r.survives >= 4
  }

  /** A confirmed restore of a backup of `s`. */
  predicate Restores(w: World, r: Request, s: Live, manifest: Content) {
    && s.db.Some? && OnlyKeyFiles(s)
    && r.path in w.archives && w.archives[r.path] == ArchiveOf(s, manifest)
    && r.parses(manifest) && r.confirm
  }

  lemma ReachesUnpacking(w: World, r: Request, s: Live, manifest: Content)
    requires Restores(w, r, s, manifest)
    ensures RestoreBackup(w, r) == Unpacked(SafetyCopy(w, r).world, r, SafetyCopy(w, r).ok)
    ensures SafetyCopy(w, r).world.live == w.live && r.path in SafetyCopy(w, r).world.archives
  {
    BackupHolds(s.db.value, s.keys, manifest, MANIFEST_NAME);
    RegularIsExtractable(ArchiveOf(s, manifest).members, MANIFEST_NAME);
    hide Lookup, BackupMembers, Unpacked, Extractable;
  }

  lemma UnpackingBrings(w: World, r: Request, safety: bool, s: Live, manifest: Content)
    requires s.db.Some? && OnlyKeyFiles(w.live) && Undisturbed(r)
    requires r.path in w.archives && w.archives[r.path] == ArchiveOf(s, manifest)
    ensures Unpacked(w, r, safety).world == w.(live := Overlaid(s, w.live))
    ensures Unpacked(w, r, safety).result.Success?
  {
    BackupHolds(s.db.value, s.keys, manifest, DB_NAME);
    WritesAreFew(ArchiveOf(s, manifest).members);
    OverwritingBrings(s, manifest, w.live);
    hide BackupMembers, Writes, OverwrittenAll, Safe, Lookup;
  }

  lemma OverlaidOnItself(w: Live)
    ensures Overlaid(w, w) == w
  {
    assert (w.keys + (map n | n in w.keys && n in KEY_FILES :: w.keys[n])) == w.keys;
  }

  /**
   * Restoring a backup of `s` over any live state gives back the database and the key
   * files of `s` and leaves the keys `s` lacked, exactly when the safety copy of the
   * current state does not overwrite that backup first (or there was nothing to change).
   */
  lemma RestoreBringsBackIff(w: World, r: Request, s: Live, manifest: Content)
    requires Restores(w, r, s, manifest) && OnlyKeyFiles(w.live) && Undisturbed(r)
    ensures var after := RestoreBackup(w, r);
      (after.result.Success? && after.world.live == Overlaid(s, w.live))
      <==> LeavesArchive(w, r) || (r.safetyIo.BackupWorks? && Overlaid(s, w.live) == w.live)
  {
    ReachesUnpacking(w, r, s, manifest);
    var made := SafetyCopy(w, r);
    if LeavesArchive(w, r) {
      assert made.world.archives[r.path] == w.archives[r.path];
      UnpackingBrings(made.world, r, made.ok, s, manifest);
    } else if r.safetyIo.BackupWorks? {
      assert made.world.archives[r.path] == ArchiveOf(w.live, r.safetyManifest);
      UnpackingBrings(made.world, r, made.ok, w.live, r.safetyManifest);
      OverlaidOnItself(w.live);
    }
    hide Overlaid, RestoreBackup, ArchiveOf;
  }

  /** A confirmed restore of the archive "a" whose safety copy goes to the same name. */
  function SameSecond(parses: Content -> bool): Request {
    Request("a", true, "a", "m", BackupWorks, parses, 4)
  }

  /** The old database is asked for, success is reported, and the new one stays. */
  lemma SameNameLosesBackup(manifest: Content, parses: Content -> bool)
    requires parses(manifest)
    ensures var w := World(Live(Some("new"), map[]), map["a" := ArchiveOf(Live(Some("old"), map[]), manifest)]);
      RestoreBackup(w, SameSecond(parses)).result.Success? && RestoreBackup(w, SameSecond(parses)).world.live == w.live
  {
    hide ArchiveOf, RestoreBackup, Unpacked, Inspected;
    var s, live := Live(Some("old"), map[]), Live(Some("new"), map[]);
    var w := World(live, map["a" := ArchiveOf(s, manifest)]);
    var r := SameSecond(parses);
    ReachesUnpacking(w, r, s, manifest);
    var made := SafetyCopy(w, r);
    OwnCopyIs(w, r);
    UnpackingBrings(made.world, r, made.ok, live, "m");
    OverlaidOnItself(live);
  }

  lemma OwnCopyIs(w: World, r: Request)
    requires w.live.db.Some? && r.safetyIo.BackupWorks?
    ensures var made := SafetyCopy(w, r).world;
      made.live == w.live && r.safetyPath in made.archives
      && made.archives[r.safetyPath] == ArchiveOf(w.live, r.safetyManifest)
  {
  }

  // ---------------------------------------------------------------- exactly when a restore is made

  ghost predicate Has(members: seq<Member>, name: string) {
    exists m :: m in members && m.name == name
  }

  /** The archive is there and readable, and the last manifest in it is a regular file that parses. */
  ghost predicate Inspectable(w: World, r: Request) {
    && r.path in w.archives && w.archives[r.path].Archive?
    && var members := w.archives[r.path].members;
       exists i :: LastOf(members, i, "manifest.json") && members[i].regular && r.parses(members[i].content)
  }

  ghost predicate LastOf(members: seq<Member>, i: int, name: string) {
    0 <= i < |members| && members[i].name == name && forall j | i < j < |members| :: members[j].name != name
  }

  lemma {:induction false} LookupIsLast(members: seq<Member>, i: int, name: string)
    requires LastOf(members, i, name)
    ensures Lookup(members, name) == Some(members[i].content)
    ensures Extractable(members, name) <==> members[i].regular
  {
    if i < |members| - 1 { LookupIsLast(members[..|members| - 1], i, name); }
  }

  lemma {:induction false} LookupFinds(members: seq<Member>, name: string) returns (i: int)
    ensures Lookup(members, name).Some? <==> Has(members, name)
    ensures Has(members, name) ==> LastOf(members, i, name)
  {
    i := |members| - 1;
    if members != [] {
      var rest := members[..|members| - 1];
      assert members == rest + [members[|members| - 1]];
      if members[|members| - 1].name != name {
        i := LookupFinds(rest, name);
        if Has(members, name) {
          var m :| m in members && m.name == name;
          assert m in rest;
        }
      } else {
        assert members[|members| - 1] in members;
      }
    }
  }

  lemma InspectedIff(w: World, r: Request)
    ensures Inspected(w, r).None? <==> Inspectable(w, r)
    ensures Inspectable(w, r) ==> r.path in w.archives
  {
    if r.path in w.archives && w.archives[r.path].Archive? {
      var members := w.archives[r.path].members;
      var i := LookupFinds(members, MANIFEST_NAME);
      if Has(members, MANIFEST_NAME) { LookupIsLast(members, i, MANIFEST_NAME); }
      forall j | LastOf(members, j, MANIFEST_NAME) ensures Has(members, MANIFEST_NAME) && j == i {
        assert members[j] in members;
      }
    }
    hide Lookup, Extractable;
  }

  /** Without confirmation nothing is touched: no live file, no archive, and no safety copy is made. */
  lemma UnconfirmedTouchesNothing(w: World, r: Request)
    requires !r.confirm
    ensures var x := RestoreBackup(w, r);
      && x.world == w && !x.safety && x.result.Failure?
      && (x.result.error.NotConfirmed? <==> Inspectable(w, r))
      && (x.result.error.Missing? <==> r.path !in w.archives)
  {
    InspectedIff(w, r);
    hide Inspectable, Lookup, Extractable;
  }

  /** The archive a confirmed restore unpacks: a safety copy of the same name has replaced it. */
  ghost function Opened(w: World, r: Request): Archive
    requires r.path in w.archives
  {
    if r.path != r.safetyPath || w.live.db.None? || r.safetyIo.SnapshotFails? then w.archives[r.path]
    else if r.safetyIo.ArchiveFails? then Broken
    else ArchiveOf(w.live, r.safetyManifest)
  }

  ghost predicate AllExpected(members: seq<Member>) {
    forall m | m in members ::
      m.regular && m.name in {"manifest.json", "vpn.db", "reality-private-key", "reality-public-key", "short-id"}
  }

  /** How many live files there are to overwrite. */
  ghost function FilesIn(members: seq<Member>): nat {
    (if Has(members, "vpn.db") then 1 else 0) + (if Has(members, "reality-private-key") then 1 else 0)
    + (if Has(members, "reality-public-key") then 1 else 0) + (if Has(members, "short-id") then 1 else 0)
  }

  /** The names of the live files in the archive, in the order in which they are overwritten. */
  ghost function NamesIn(members: seq<Member>): seq<string> {
    (if Has(members, "vpn.db") then ["vpn.db"] else [])
    + (if Has(members, "reality-private-key") then ["reality-private-key"] else [])
    + (if Has(members, "reality-public-key") then ["reality-public-key"] else [])
    + (if Has(members, "short-id") then ["short-id"] else [])
  }

  lemma SafeIff(members: seq<Member>)
    ensures Safe(members) <==> AllExpected(members)
  {
    if Safe(members) {
      forall m | m in members ensures Expected(m) {
        var i :| 0 <= i < |members| && members[i] == m;
      }
    }
  }

  lemma NamesJoin(a: seq<Member>, b: seq<Member>)
    ensures Names(a + b) == Names(a) + Names(b)
  {
  }

  lemma PieceNames(name: string, members: seq<Member>)
    ensures Names(Piece(name, Lookup(members, name))) == if Has(members, name) then [name] else []
  {
    var i := LookupFinds(members, name);
    hide Lookup;
  }

  ghost function Present(names: seq<string>, members: seq<Member>): seq<string> {
    if names == [] then [] else (if Has(members, names[0]) then [names[0]] else []) + Present(names[1..], members)
  }

  lemma {:induction false} KeyWritesNamed(names: seq<string>, members: seq<Member>)
    ensures Names(KeyWrites(names, members)) == Present(names, members)
  {
    hide Has, Lookup, Piece;
    if names != [] {
      KeyWritesNamed(names[1..], members);
      NamesJoin(Piece(names[0], Lookup(members, names[0])), KeyWrites(names[1..], members));
      PieceNames(names[0], members);
    }
  }

  lemma PresentThree(a: string, b: string, c: string, members: seq<Member>)
    ensures Present([a, b, c], members) ==
      (if Has(members, a) then [a] else []) + (if Has(members, b) then [b] else [])
      + (if Has(members, c) then [c] else [])
  {
    hide Has;
    assert [a, b, c][1..] == [b, c] && [b, c][1..] == [c] && [c][1..] == [];
    assert Present([c], members) == (if Has(members, c) then [c] else []) + Present([], members);
    assert Present([b, c], members) == (if Has(members, b) then [b] else []) + Present([c], members);
  }

  lemma WritesNamed(members: seq<Member>)
    ensures Names(Writes(members)) == NamesIn(members) && |Writes(members)| == FilesIn(members)
  {
    hide KeyWrites, Piece, Lookup, Has, Present;
    NamesJoin(Piece(DB_NAME, Lookup(members, DB_NAME)), KeyWrites(KEY_FILES, members));
    PieceNames(DB_NAME, members);
    KeyWritesNamed(KEY_FILES, members);
    PresentThree(KEY_FILES[0], KEY_FILES[1], KEY_FILES[2], members);
    assert KEY_FILES == [KEY_FILES[0], KEY_FILES[1], KEY_FILES[2]];
    assert |Names(Writes(members))| == |Writes(members)|;
  }

  lemma OpensWhat(w: World, r: Request)
    requires r.path in w.archives
    ensures var made := SafetyCopy(w, r).world;
      r.path in made.archives && made.archives[r.path] == Opened(w, r) && made.live == w.live
  {
    hide BackupMembers;
  }

  /**
   * A restore succeeds exactly when it is confirmed, the archive can be inspected, what is
   * then unpacked is readable and holds expected regular files only, and no write of a
   * live file fails; and it names the files it wrote.
   */
  lemma RestoreSucceedsIff(w: World, r: Request)
    ensures RestoreBackup(w, r).result.Success? <==>
      && Inspectable(w, r) && r.confirm
      && Opened(w, r).Archive? && AllExpected(Opened(w, r).members) && FilesIn(Opened(w, r).members) <= r.survives
    ensures RestoreBackup(w, r).result.Success? ==>
      r.path in w.archives && RestoreBackup(w, r).result.value == NamesIn(Opened(w, r).members)
  {
    hide Inspected, Inspectable, SafetyCopy, Opened, Writes, Safe, AllExpected, FilesIn, NamesIn, OverwrittenAll,
      Names;
    InspectedIff(w, r);
    if r.path in w.archives {
      OpensWhat(w, r);
      if Opened(w, r).Archive? {
        SafeIff(Opened(w, r).members);
        WritesNamed(Opened(w, r).members);
      }
    }
  }

  function FileOf(live: Live, name: string): Option<Content> {
    if name == "vpn.db" then live.db else KeyOf(live.keys, name)
  }

  lemma {:induction false} FileAfter(live: Live, writes: seq<Member>, name: string)
    ensures FileOf(OverwrittenAll(live, writes), name) ==
      if Lookup(writes, name).Some? then Lookup(writes, name) else FileOf(live, name)
  {
    if writes != [] { FileAfter(live, writes[..|writes| - 1], name); }
  }

  lemma KeyWritesAreDistinct(members: seq<Member>)
    ensures var names := NamesIn(members); forall i, j | 0 <= i < j < |names| :: names[i] != names[j]
  {
    hide Has;
  }

  /** Of the first `k` writes of distinct names, the one of a name is found exactly if it is among them. */
  lemma {:induction false} LookupPrefix(writes: seq<Member>, k: nat, i: nat)
    requires k <= |writes| && i < |writes|
    requires forall a, b | 0 <= a < b < |writes| :: writes[a].name != writes[b].name
    ensures Lookup(writes[..k], writes[i].name) == if i < k then Some(writes[i].content) else None
    decreases k
  {
    if k > 0 {
      assert writes[..k][..k - 1] == writes[..k - 1];
      LookupPrefix(writes, k - 1, i);
    }
  }

  lemma WritesAreNamed(members: seq<Member>)
    ensures var writes, names := Writes(members), NamesIn(members);
      && |writes| == |names|
      && (forall i | 0 <= i < |names| :: writes[i].name == names[i])
      && (forall i, j | 0 <= i < j < |names| :: names[i] != names[j])
  {
    WritesNamed(members);
    KeyWritesAreDistinct(members);
    hide Writes, NamesIn;
    assert forall i | 0 <= i < |Writes(members)| :: Names(Writes(members))[i] == Writes(members)[i].name;
  }

  /**
   * A restore that a failing write stops has overwritten the files before it, in order, with
   * the archive's contents, and has left that one and those after it as they were.
   */
  lemma StoppedRestoreLeaves(w: World, r: Request, i: nat)
    requires RestoreBackup(w, r).result == Failure(WriteFailed)
    requires r.path in w.archives && Opened(w, r).Archive? && i < |NamesIn(Opened(w, r).members)|
    ensures var members, live := Opened(w, r).members, RestoreBackup(w, r).world.live;
      var name := NamesIn(members)[i];
      FileOf(live, name) == if i < r.survives then Lookup(members, name) else FileOf(w.live, name)
  {
    hide RestoreBackup, Opened, Writes, NamesIn, OverwrittenAll, Lookup, FileOf;
    StoppedAfter(w, r);
    var members := Opened(w, r).members;
    var writes, name := Writes(members), NamesIn(members)[i];
    WritesAreNamed(members);
    LookupPrefix(writes, r.survives, i);
    FileAfter(w.live, writes[..r.survives], name);
    LookupPrefix(writes, |writes|, i);
    assert writes[..|writes|] == writes;
    LookupWrites(members, name);
    NamesAreLive(members, i);
  }

  lemma StoppedAfter(w: World, r: Request)
    requires RestoreBackup(w, r).result == Failure(WriteFailed)
    requires r.path in w.archives && Opened(w, r).Archive?
    ensures var writes := Writes(Opened(w, r).members);
      && r.survives < |writes|
      && RestoreBackup(w, r).world.live == OverwrittenAll(w.live, writes[..r.survives])
  {
    hide SafetyCopy, Opened, Writes, Safe, OverwrittenAll, Lookup, Extractable;
    OpensWhat(w, r);
  }

  lemma NamesAreLive(members: seq<Member>, i: nat)
    requires i < |NamesIn(members)|
    ensures NamesIn(members)[i] == DB_NAME || NamesIn(members)[i] in KEY_FILES
  {
    assert KEY_FILES[0] == "reality-private-key" && KEY_FILES[1] == "reality-public-key" && KEY_FILES[2] == "short-id";
    hide Has;
  }

  // ---------------------------------------------------------------- what never changes live data

  /** A write of what is already there. */
  predicate Agrees(live: Live, m: Member) {
    if m.name == DB_NAME then live.db == Some(m.content) else KeyOf(live.keys, m.name) == Some(m.content)
  }

  lemma {:induction false} AgreeingIsIdle(live: Live, writes: seq<Member>)
    requires forall i | 0 <= i < |writes| :: Agrees(live, writes[i])
    ensures OverwrittenAll(live, writes) == live
  {
    if writes != [] {
      AgreeingIsIdle(live, writes[..|writes| - 1]);
      var m := writes[|writes| - 1];
      assert Agrees(live, m);
      if m.name != DB_NAME {
        assert live.keys[m.name := m.content] == live.keys;
      }
    }
  }

  lemma {:induction false} KeyWritesAgree(live: Live, members: seq<Member>, names: seq<string>)
    requires DB_NAME !in names
    requires forall n | n in names :: Lookup(members, n).Some? ==> KeyOf(live.keys, n) == Lookup(members, n)
    ensures forall i | 0 <= i < |KeyWrites(names, members)| :: Agrees(live, KeyWrites(names, members)[i])
  {
    if names != [] {
      assert names == [names[0]] + names[1..];
      KeyWritesAgree(live, members, names[1..]);
    }
  }

  lemma OwnCopyIsIdle(live: Live, manifest: Content, k: nat)
    requires live.db.Some? && k <= |Writes(ArchiveOf(live, manifest).members)|
    ensures OverwrittenAll(live, Writes(ArchiveOf(live, manifest).members)[..k]) == live
  {
    var members := ArchiveOf(live, manifest).members;
    var writes := Writes(members);
    forall n | n in KEY_FILES ensures Lookup(members, n).Some? ==> KeyOf(live.keys, n) == Lookup(members, n) {
      BackupHolds(live.db.value, live.keys, manifest, n);
    }
    BackupHolds(live.db.value, live.keys, manifest, DB_NAME);
    KeyWritesAgree(live, members, KEY_FILES);
    assert writes == Piece(DB_NAME, live.db) + KeyWrites(KEY_FILES, members);
    hide BackupMembers, Lookup, Writes, KeyWrites;
    assert forall i | 0 <= i < k :: Agrees(live, writes[..k][i]);
    AgreeingIsIdle(live, writes[..k]);
  }

  /** An archive with any member that is not expected never touches the live database or keys. */
  lemma UnexpectedMemberChangesNothing(w: World, r: Request, members: seq<Member>)
    requires r.path in w.archives && w.archives[r.path] == Archive(members) && !Safe(members)
    ensures RestoreBackup(w, r).world.live == w.live
    ensures LeavesArchive(w, r) ==> RestoreBackup(w, r).result.Failure?
  {
    if Inspected(w, r).None? && r.confirm {
      var made := SafetyCopy(w, r);
      if !LeavesArchive(w, r) && r.safetyIo.BackupWorks? {
        var own := ArchiveOf(w.live, r.safetyManifest);
        assert made.world.archives[r.path] == own;
        var n := |Writes(own.members)|;
        OwnCopyIsIdle(w.live, r.safetyManifest, n);
        assert Writes(own.members)[..n] == Writes(own.members);
        if r.survives < n {
          OwnCopyIsIdle(w.live, r.safetyManifest, r.survives);
        }
        hide Writes, OverwrittenAll, ArchiveOf, Inspected, Safe;
        assert RestoreBackup(w, r) == Unpacked(made.world, r, made.ok);
      }
    }
  }

  // ---------------------------------------------------------------- undoing a restore

  lemma SafetyCopyStays(w: World, r: Request)
    requires Inspected(w, r).None? && r.confirm
    ensures RestoreBackup(w, r).world.archives == SafetyCopy(w, r).world.archives
  {
    hide Inspected, SafetyCopy, Writes, OverwrittenAll, Safe;
  }

  lemma {:induction false} OverwritingKeepsKeyFiles(live: Live, writes: seq<Member>)
    requires OnlyKeyFiles(live)
    requires forall i | 0 <= i < |writes| :: writes[i].name == DB_NAME || writes[i].name in KEY_FILES
    ensures OnlyKeyFiles(OverwrittenAll(live, writes))
  {
    if writes != [] {
      OverwritingKeepsKeyFiles(live, writes[..|writes| - 1]);
    }
  }

  lemma {:induction false} KeyWritesNames(names: seq<string>, members: seq<Member>)
    ensures forall i | 0 <= i < |KeyWrites(names, members)| :: KeyWrites(names, members)[i].name in names
  {
    if names != [] {
      KeyWritesNames(names[1..], members);
    }
  }

  lemma RestoreKeepsKeyFiles(w: World, r: Request)
    requires OnlyKeyFiles(w.live)
    ensures OnlyKeyFiles(RestoreBackup(w, r).world.live)
  {
    var made := SafetyCopy(w, r).world;
    if r.path in made.archives && made.archives[r.path].Archive? {
      var members := made.archives[r.path].members;
      KeyWritesNames(KEY_FILES, members);
      var writes := Writes(members);
      OverwritingKeepsKeyFiles(made.live, writes);
      var n := if r.survives < |writes| then r.survives else |writes|;
      OverwritingKeepsKeyFiles(made.live, writes[..n]);
    }
    hide Writes, OverwrittenAll, Safe, Inspected;
  }

  /**
   * However a confirmed restore went, finished, refused or stopped halfway, restoring the
   * safety copy it made brings back the earlier database and every key file that existed.
   */
  lemma SafetyCopyUndoes(w: World, r: Request, again: Request)
    requires OnlyKeyFiles(w.live) && w.live.db.Some?
    requires Inspected(w, r).None? && r.confirm && r.safetyIo.BackupWorks?
    requires again.path == r.safetyPath && again.confirm && again.parses(r.safetyManifest)
    requires LeavesArchive(RestoreBackup(w, r).world, again) && Undisturbed(again)
    ensures var undone := RestoreBackup(RestoreBackup(w, r).world, again);
      && undone.result.Success?
      && undone.world.live == Overlaid(w.live, RestoreBackup(w, r).world.live)
      && undone.world.live.db == w.live.db
      && forall n | n in w.live.keys :: n in undone.world.live.keys && undone.world.live.keys[n] == w.live.keys[n]
  {
    var first := RestoreBackup(w, r).world;
    SafetyCopyStays(w, r);
    RestoreKeepsKeyFiles(w, r);
    assert first.archives[again.path] == ArchiveOf(w.live, r.safetyManifest);
    hide ArchiveOf, RestoreBackup;
    RestoreBringsBackIff(first, again, w.live, r.safetyManifest);
  }
}
