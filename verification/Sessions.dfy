/** Admin sessions: purging by text and rejecting by time come to the same thing. */
module Sessions {
  import opened Prelude
  import opened Timestamps

  /** A row of the sessions table; the two times are stored as text. */
  datatype Row = Row(csrf: string, username: string, created: string, expires: string, ip: string)

  /** Rows by token: the keyed hash is taken as injective. */
  type Table = map<string, Row>

  datatype Record = Record(username: string, csrf: string, created: Option<Moment>, expires: Moment, ip: string)

  function NewRow(csrf: string, username: string, now: Moment, expires: Moment, ip: string): Row {
    Row(csrf, username, Iso(now), Iso(expires), if |ip| > 64 then ip[..64] else ip)
  }

  /** What `get_session` makes of a row: None when its expiry is unreadable or not after `now`. */
  function Accepted(r: Row, now: Moment): Option<Record> {
    match ParseIso(r.expires)
    case None => None
    case Some(e) => if NotAfter(e, now) then None else Some(Record(r.username, r.csrf, ParseIso(r.created), e, r.ip))
  }

  /** A missing or empty token finds nothing. */
  function Found(t: Table, token: Option<string>, now: Moment): Option<Record> {
    match token
    case None => None
    case Some(k) => if k != "" && k in t then Accepted(t[k], now) else None
  }

  /** The table after `get_session`: a rejected session is destroyed. */
  function AfterGet(t: Table, token: Option<string>, now: Moment): Table {
    match token
    case None => t
    case Some(k) => if k != "" && k in t && Accepted(t[k], now).None? then t - {k} else t
  }

  /** DELETE FROM sessions WHERE expires_at <= now */
  function Purged(t: Table, now: Moment): Table {
    map k | k in t && CompareText(t[k].expires, Iso(now)) > 0 :: t[k]
  }

  /** Every expiry was written by `to_iso` for a year of four digits. */
  ghost predicate Stored(t: Table) {
    forall k | k in t :: exists e: Moment :: FourDigits(e) && t[k].expires == Iso(e)
  }

  lemma PurgeMatchesReject(r: Row, e: Moment, now: Moment)
    requires FourDigits(e) && FourDigits(now) && r.expires == Iso(e)
    ensures CompareText(r.expires, Iso(now)) > 0 <==> Accepted(r, now).Some?
  {
    IsoRoundTrip(e);
    TextSortsLikeTime(e, now);
    TruncationIsHarmless(e, now);
    hide Iso, CompareText, ParseIso, Valid;
    assert Truncated(Truncated(e)) == Truncated(e);
  }

  /** A purge removes exactly the sessions that `get_session` would reject at the same clock reading. */
  lemma PurgeDeletesExactlyRejected(t: Table, now: Moment)
    requires Stored(t) && FourDigits(now)
    ensures forall k | k in t :: k in Purged(t, now) <==> Accepted(t[k], now).Some?
    ensures forall k | k in Purged(t, now) :: k in t && Purged(t, now)[k] == t[k]
  {
    forall k | k in t ensures CompareText(t[k].expires, Iso(now)) > 0 <==> Accepted(t[k], now).Some? {
      var e: Moment :| FourDigits(e) && t[k].expires == Iso(e);
      PurgeMatchesReject(t[k], e, now);
    }
    hide Accepted, CompareText, Iso;
  }

  /** Purging is invisible: no later reader gets another answer because of it. */
  lemma PurgeIsInvisible(t: Table, purge: Moment, token: Option<string>, now: Moment)
    requires Stored(t) && FourDigits(purge) && NotAfter(purge, now)
    ensures Found(Purged(t, purge), token, now) == Found(t, token, now)
  {
    PurgeDeletesExactlyRejected(t, purge);
    if token.Some? && token.value in t {
      var r := t[token.value];
      if Accepted(r, purge).None? && ParseIso(r.expires).Some? {
        NotAfterTransitive(ParseIso(r.expires).value, purge, now);
      }
    }
    hide Purged, ParseIso, NotAfter;
  }

  /** Reading a session is invisible too, though it may delete one. */
  lemma GetIsInvisible(t: Table, first: Option<string>, at: Moment, token: Option<string>, now: Moment)
    requires NotAfter(at, now)
    ensures Found(AfterGet(t, first, at), token, now) == Found(t, token, now)
  {
    if first.Some? && first.value in t && token == first {
      var r := t[first.value];
      if ParseIso(r.expires).Some? && NotAfter(ParseIso(r.expires).value, at) {
        NotAfterTransitive(ParseIso(r.expires).value, at, now);
      }
    }
    hide ParseIso, NotAfter;
  }

  /** What a read refuses to return is gone afterwards, and nothing else is. */
  lemma RejectedIsDestroyed(t: Table, token: Option<string>, now: Moment, k: string)
    ensures var after := AfterGet(t, token, now);
            && (k in after <==> k in t && !(token == Some(k) && k != "" && Found(t, token, now).None?))
            && (k in after ==> after[k] == t[k])
  {
    hide Accepted;
  }

  /** A new session survives the purge that follows it exactly when it has not expired meanwhile. */
  lemma InsertThenPurge(t: Table, token: string, row: Row, expires: Moment, later: Moment)
    requires Stored(t) && FourDigits(expires) && FourDigits(later) && row.expires == Iso(expires)
    ensures Stored(Purged(t[token := row], later))
    ensures token in Purged(t[token := row], later) <==> !NotAfter(Truncated(expires), later)
  {
    var u := t[token := row];
    assert Stored(u);
    PurgeDeletesExactlyRejected(u, later);
    IsoRoundTrip(expires);
    assert Accepted(u[token], later).Some? <==> !NotAfter(Truncated(expires), later);
    hide Accepted, Purged, Iso, NotAfter, FourDigits;
  }

  lemma StoredMoment(e: Moment)
    requires FourDigits(e)
    ensures ParseIso(Iso(e)) == Some(Truncated(e))
  {
    IsoRoundTrip(e);
  }

  /**
   A session that was created is found under its token, and under no shorter-lived
   terms than it was given: its own user, its own CSRF secret, the times in whole
   seconds and the address cut to 64 characters, until the moment it expires.
   */
  lemma CreatedIsFound(
      t: Table, token: string, csrf: string, username: string, at: Moment, expires: Moment, ip: string, now: Moment)
    requires FourDigits(at) && FourDigits(expires) && token != ""
    ensures Found(t[token := NewRow(csrf, username, at, expires, ip)], Some(token), now) ==
            if NotAfter(Truncated(expires), now) then None
            else Some(Record(username, csrf, Some(Truncated(at)), Truncated(expires),
                             ip[..if |ip| > 64 then 64 else |ip|]))
    ensures forall other: string | other != token ::
              Found(t[token := NewRow(csrf, username, at, expires, ip)], Some(other), now) == Found(t, Some(other), now)
    ensures Found(t, None, now) == None && Found(t, Some(""), now) == None
  {
    StoredMoment(at);
    StoredMoment(expires);
    assert ip[..|ip|] == ip;
    hide Iso, ParseIso, NotAfter, FourDigits;
  }

  class SessionStore {
    var rows: Table

    constructor ()
      ensures rows == map[]
    {
      rows := map[];
    }

    /**
     * `create_session` with the fresh secrets `token` and `csrf`; the purge that follows
     * reads the clock again, at `later`.
     */
    method CreateSession(token: string, csrf: string, username: string, now: Moment, expires: Moment, ip: string,
                         later: Moment)
      requires token !in rows && Stored(rows)
      requires FourDigits(now) && FourDigits(expires) && FourDigits(later)
      modifies this
      ensures rows == Purged(old(rows)[token := NewRow(csrf, username, now, expires, ip)], later)
      ensures Stored(rows)
      // the new session is there exactly when it has not expired meanwhile
      ensures token in rows <==> !NotAfter(Truncated(expires), later)
    {
      hide Stored, Purged, FourDigits, NotAfter;
      var row := NewRow(csrf, username, now, expires, ip);
      InsertThenPurge(rows, token, row, expires, later);
      rows := rows[token := row];
      var deleted := PurgeExpired(later);
    }

    method GetSession(token: Option<string>, now: Moment) returns (session: Option<Record>)
      modifies this
      ensures session == Found(old(rows), token, now)
      ensures rows == AfterGet(old(rows), token, now)
    {
      if token.None? || token.value == "" || token.value !in rows {
        return None;
      }
      session := Accepted(rows[token.value], now);
      if session.None? {
        DestroySession(token);
      }
    }

    method DestroySession(token: Option<string>)
      modifies this
      ensures rows == if token.Some? && token.value != "" then old(rows) - {token.value} else old(rows)
    {
      if token.Some? && token.value != "" {
        rows := rows - {token.value};
      }
    }

    /** The result is the number of rows deleted. */
    method PurgeExpired(now: Moment) returns (deleted: int)
      modifies this
      ensures rows == Purged(old(rows), now)
      ensures deleted == |old(rows)| - |rows|
    {
      var before := |rows|;
      rows := map k | k in rows && CompareText(rows[k].expires, Iso(now)) > 0 :: rows[k];
      deleted := before - |rows|;
    }
  }
}
