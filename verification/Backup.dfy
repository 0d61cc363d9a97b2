/** Backups of the database and the REALITY keys, and restoring them over live data. */
module Backup {
  import opened Prelude

  const MANIFEST_NAME := "manifest.json"
  const DB_NAME := "vpn.db"
  const KEY_FILES := ["reality-private-key", "reality-public-key", "short-id"]

  type Content = string

  datatype Member = Member(name: string, regular: bool, content: Content)

  /** A readable archive, or the remains of one whose writing failed. */
  datatype Archive = Archive(members: seq<Member>) | Broken

  /** What a backup protects: the database file, if any, and the key files that exist. */
  datatype Live = Live(db: Option<Content>, keys: map<string, Content>)

  datatype World = World(live: Live, archives: map<string, Archive>)

  // ---------------------------------------------------------------- archives

  /** The last member of that name, which is the one tar extracts. */
  function Lookup(members: seq<Member>, name: string): Option<Content> {
    if members == [] then None
    else var last := members[|members| - 1];
      if last.name == name then Some(last.content) else Lookup(members[..|members| - 1], name)
  }

  /** A file as a member, if there is one. */
  function Piece(name: string, content: Option<Content>): seq<Member> {
    match content
    case Some(c) => [Member(name, true, c)]
    case None => []
  }

  function KeyOf(keys: map<string, Content>, name: string): Option<Content> {
    if name in keys then Some(keys[name]) else None
  }

  function KeyMembers(names: seq<string>, keys: map<string, Content>): seq<Member> {
    if names == [] then [] else Piece(names[0], KeyOf(keys, names[0])) + KeyMembers(names[1..], keys)
  }

  function BackupMembers(db: Content, keys: map<string, Content>, manifest: Content): seq<Member> {
    Piece(MANIFEST_NAME, Some(manifest)) + (Piece(DB_NAME, Some(db)) + KeyMembers(KEY_FILES, keys))
  }

  datatype BackupIo = SnapshotFails | ArchiveFails | BackupWorks

  datatype Made = Made(world: World, ok: bool)

  function CreateBackup(w: World, path: string, manifest: Content, io: BackupIo): Made {
    match (w.live.db, io)
    case (None, _) => Made(w, false)
    case (_, SnapshotFails) => Made(w, false)
    case (_, ArchiveFails) => Made(w.(archives := w.archives[path := Broken]), false)
    case (Some(db), BackupWorks) =>
      Made(w.(archives := w.archives[path := Archive(BackupMembers(db, w.live.keys, manifest))]), true)
  }

  // ---------------------------------------------------------------- restoring

  predicate Expected(m: Member) {
    m.regular && (m.name == MANIFEST_NAME || m.name == DB_NAME || m.name in KEY_FILES)
  }

  predicate Safe(members: seq<Member>) {
    forall i | 0 <= i < |members| :: Expected(members[i])
  }

  /** The live files a restore overwrites, in order, with the staged contents. */
  function Writes(members: seq<Member>): seq<Member> {
    Piece(DB_NAME, Lookup(members, DB_NAME)) + KeyWrites(KEY_FILES, members)
  }

  function KeyWrites(names: seq<string>, members: seq<Member>): seq<Member> {
    if names == [] then [] else Piece(names[0], Lookup(members, names[0])) + KeyWrites(names[1..], members)
  }

  function Overwritten(live: Live, m: Member): Live {
    if m.name == DB_NAME then live.(db := Some(m.content)) else live.(keys := live.keys[m.name := m.content])
  }

  function OverwrittenAll(live: Live, writes: seq<Member>): Live {
    if writes == [] then live
    else Overwritten(OverwrittenAll(live, writes[..|writes| - 1]), writes[|writes| - 1])
  }

  datatype RestoreError = Missing | Unreadable | NoManifest | NotConfirmed | UnexpectedMember | WriteFailed

  /** How a restore is asked for and what happens around it. */
  datatype Request = Request(
    path: string,
    confirm: bool,
    safetyPath: string,         // where the safety copy of this second goes
    safetyManifest: Content,
    safetyIo: BackupIo,
    parses: Content -> bool,    // which manifests are JSON
    survives: nat)              // live writes that succeed before one fails

  datatype Restored = Restored(world: World, safety: bool, result: Result<seq<string>, RestoreError>)

  /** The last member of that name is a regular file; anything else has no content to extract. */
  predicate Extractable(members: seq<Member>, name: string) {
    members != [] &&
    var last := members[|members| - 1];
    if last.name == name then last.regular else Extractable(members[..|members| - 1], name)
  }

  /** `inspect_backup`: the fault found in an archive before anything else is done. */
  function Inspected(w: World, r: Request): Option<RestoreError> {
    if r.path !in w.archives then Some(Missing)
    else match w.archives[r.path]
      case Broken => Some(Unreadable)
      case Archive(members) =>
        match Lookup(members, MANIFEST_NAME)
        case None => Some(Unreadable)
        case Some(c) =>
          if !Extractable(members, MANIFEST_NAME) then Some(NoManifest)
          else if r.parses(c) then None
          else Some(Unreadable)
  }

  function Names(writes: seq<Member>): seq<string> {
    seq(|writes|, i requires 0 <= i < |writes| => writes[i].name)
  }

  /** Opening the archive again, checking its members and overwriting the live files. */
  function Unpacked(w: World, r: Request, safety: bool): Restored
    requires r.path in w.archives
  {
    match w.archives[r.path]
    case Broken => Restored(w, safety, Failure(Unreadable))
    case Archive(members) =>
      if !Safe(members) then Restored(w, safety, Failure(UnexpectedMember))
      else
        var writes := Writes(members);
        if r.survives < |writes|
        then Restored(w.(live := OverwrittenAll(w.live, writes[..r.survives])), safety, Failure(WriteFailed))
        else Restored(w.(live := OverwrittenAll(w.live, writes)), safety, Success(Names(writes)))
  }

  function SafetyCopy(w: World, r: Request): Made {
    CreateBackup(w, r.safetyPath, r.safetyManifest, r.safetyIo)
  }

  function RestoreBackup(w: World, r: Request): Restored {
    match Inspected(w, r)
    case Some(e) => Restored(w, false, Failure(e))
    case None =>
      if !r.confirm then Restored(w, false, Failure(NotConfirmed))
      else Unpacked(SafetyCopy(w, r).world, r, SafetyCopy(w, r).ok)
  }

  // ---------------------------------------------------------------- what an archive holds

  lemma {:induction false} LookupInBoth(a: seq<Member>, b: seq<Member>, name: string)
    ensures Lookup(a + b, name) == if Lookup(b, name).Some? then Lookup(b, name) else Lookup(a, name)
    decreases |b|
  {
    if b == [] {
      assert a + b == a;
    } else {
      assert (a + b)[..|a + b| - 1] == a + b[..|b| - 1];
      LookupInBoth(a, b[..|b| - 1], name);
    }
  }

  lemma {:induction false} RegularIsExtractable(members: seq<Member>, name: string)
    requires Lookup(members, name).Some? && forall i | 0 <= i < |members| :: members[i].regular
    ensures Extractable(members, name)
  {
    if members[|members| - 1].name != name {
      RegularIsExtractable(members[..|members| - 1], name);
    }
  }

  lemma LookupPiece(first: string, content: Option<Content>, rest: seq<Member>, name: string)
    ensures Lookup(Piece(first, content) + rest, name)
      == if Lookup(rest, name).Some? then Lookup(rest, name) else if first == name then content else None
  {
    LookupInBoth(Piece(first, content), rest, name);
    match content {
      case Some(c) => assert [Member(first, true, c)][..0] == [];
      case None =>
    }
  }

  lemma {:induction false} LookupKeyMembers(names: seq<string>, keys: map<string, Content>, name: string)
    ensures Lookup(KeyMembers(names, keys), name) == if name in names then KeyOf(keys, name) else None
    ensures forall i | 0 <= i < |KeyMembers(names, keys)| ::
      KeyMembers(names, keys)[i].regular && KeyMembers(names, keys)[i].name in names
  {
    if names != [] {
      LookupKeyMembers(names[1..], keys, name);
      LookupPiece(names[0], KeyOf(keys, names[0]), KeyMembers(names[1..], keys), name);
    }
  }

  lemma BackupHolds(db: Content, keys: map<string, Content>, manifest: Content, name: string)
    ensures Safe(BackupMembers(db, keys, manifest))
    ensures Lookup(BackupMembers(db, keys, manifest), name)
      == if name == MANIFEST_NAME then Some(manifest)
         else if name == DB_NAME then Some(db)
         else if name in KEY_FILES then KeyOf(keys, name) else None
  {
    var rest := Piece(DB_NAME, Some(db)) + KeyMembers(KEY_FILES, keys);
    LookupKeyMembers(KEY_FILES, keys, name);
    LookupPiece(DB_NAME, Some(db), KeyMembers(KEY_FILES, keys), name);
    LookupPiece(MANIFEST_NAME, Some(manifest), rest, name);
  }

  lemma {:induction false} LookupKeyWrites(names: seq<string>, members: seq<Member>, name: string)
    ensures Lookup(KeyWrites(names, members), name) == if name in names then Lookup(members, name) else None
  {
    if names != [] {
      LookupKeyWrites(names[1..], members, name);
      LookupPiece(names[0], Lookup(members, names[0]), KeyWrites(names[1..], members), name);
    }
  }

  lemma LookupWrites(members: seq<Member>, name: string)
    ensures Lookup(Writes(members), name)
      == if name == DB_NAME || name in KEY_FILES then Lookup(members, name) else None
  {
    LookupKeyWrites(KEY_FILES, members, name);
    LookupPiece(DB_NAME, Lookup(members, DB_NAME), KeyWrites(KEY_FILES, members), name);
  }

  /** Each live file ends as the last thing written to it, or as it was. */
  lemma {:induction false} OverwrittenReads(live: Live, writes: seq<Member>, name: string)
    requires name != DB_NAME
    ensures var after := OverwrittenAll(live, writes);
      && after.db == (if Lookup(writes, DB_NAME).Some? then Lookup(writes, DB_NAME) else live.db)
      && KeyOf(after.keys, name) ==
         (if Lookup(writes, name).Some? then Lookup(writes, name) else KeyOf(live.keys, name))
  {
    if writes != [] {
      OverwrittenReads(live, writes[..|writes| - 1], name);
    }
  }
}
