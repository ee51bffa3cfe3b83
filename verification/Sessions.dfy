/**
 The session table and its two stores.

 The functions describe what one store call does to the table. The classes are the stores:
 SqliteSessionStore runs each call as one statement or one transaction, MemorySessionStore
 rewrites a map entry by entry.
 */
module Sessions {
  import opened Wrappers

  type Id = string
  /** SHA-256, idealised: two digests are equal exactly when the hashed strings are. */
  datatype Digest = Sha256(raw: string)

  function HashToken(raw: string): Digest {
    Sha256(raw)
  }

  datatype Session = Session(
    id: Id,
    familyId: Id,
    userId: Id,
    tokenHash: Digest,
    ip: string,
    userAgent: string,
    createdAt: Instant,
    revokedAt: Option<Instant>)
  {
    predicate Live() {
      revokedAt.None?
    }

    /** The row as INSERT stores it: created now, not revoked. */
    function Inserted(now: Instant): Session {
      this.(createdAt := now, revokedAt := None)
    }

    /** The row after a guarded `SET revoked_at`: the first revocation time is kept. */
    function Stamped(now: Instant): Session {
      if Live() then this.(revokedAt := Some(now)) else this
    }
  }

  type Table = map<Id, Session>

  datatype StoreError = NotFound | ConstraintViolation

  /** id is the primary key and token_hash is UNIQUE. */
  ghost predicate WellFormed(t: Table) {
    && (forall id | id in t :: t[id].id == id)
    && (forall i, j | i in t && j in t && t[i].tokenHash == t[j].tokenHash :: i == j)
  }

  ghost predicate HasHash(t: Table, h: Digest) {
    exists id :: id in t && t[id].tokenHash == h
  }

  /** SELECT ... WHERE token_hash = ?; revoked rows are returned too. */
  ghost function RowByHash(t: Table, h: Digest): (r: Option<Session>)
    ensures r.Some? <==> HasHash(t, h)
    ensures r.Some? ==> r.value in t.Values && r.value.tokenHash == h
  {
    if HasHash(t, h) then
      var id :| id in t && t[id].tokenHash == h;
      assert t[id] in t.Values;
      Some(t[id])
    else None
  }

  ghost predicate Insertable(t: Table, s: Session) {
    s.id !in t && !HasHash(t, s.tokenHash)
  }

  ghost function InsertRow(t: Table, s: Session, now: Instant): Result<Table, StoreError> {
    if Insertable(t, s) then Ok(t[s.id := s.Inserted(now)]) else Err(ConstraintViolation)
  }

  ghost function RevokeRow(t: Table, id: Id, now: Instant): Result<Table, StoreError> {
    if id in t && t[id].Live() then Ok(t[id := t[id].Stamped(now)]) else Err(NotFound)
  }

  ghost function RevokeFamilyRows(t: Table, familyId: Id, now: Instant): Table {
    map id | id in t :: if t[id].familyId == familyId then t[id].Stamped(now) else t[id]
  }

  ghost function RevokeUserRows(t: Table, userId: Id, now: Instant): Table {
    map id | id in t :: if t[id].userId == userId then t[id].Stamped(now) else t[id]
  }

  /** The session part of deleting a user. */
  ghost function DeleteUserRows(t: Table, userId: Id): Table {
    map id | id in t && t[id].userId != userId :: t[id]
  }

  /** The rotation transaction: the guarded revocation, then the insert, or neither. */
  ghost function RotateRows(t: Table, oldId: Id, next: Session, now: Instant): Result<Table, StoreError> {
    match RevokeRow(t, oldId, now)
    case Err(e) => Err(e)
    case Ok(t') => InsertRow(t', next, now)
  }

  /** What Rotate answers its caller. */
  datatype Rotation =
    | Rotated(raw: string, session: Session)
    | TokenReused(seen: Session)
    | InvalidToken
    | StoreFailed(error: StoreError)

  /** The session Rotate writes in place of `prior`. */
  function Successor(prior: Session, newId: Id, newRaw: string): Session {
    Session(newId, prior.familyId, prior.userId, HashToken(newRaw), prior.ip, prior.userAgent, 0, None)
  }

  /** The half of Rotate that runs after the row was read, on whatever the table is by then. */
  ghost function FinishRotation(t: Table, seen: Session, newId: Id, newRaw: string, now: Instant): (Table, Rotation) {
    if !seen.Live() then
      (RevokeFamilyRows(t, seen.familyId, now), TokenReused(seen))
    else
      var next := Successor(seen, newId, newRaw);
      match RotateRows(t, seen.id, next, now)
      case Err(e) => (t, StoreFailed(e))
      case Ok(t') => (t', Rotated(newRaw, next))
  }

  /** Rotate with nothing between its read and its write. */
  ghost function RotateOnce(t: Table, raw: string, newId: Id, newRaw: string, now: Instant): (Table, Rotation) {
    match RowByHash(t, HashToken(raw))
    case None => (t, InvalidToken)
    case Some(seen) => FinishRotation(t, seen, newId, newRaw, now)
  }

  /** The session a token belongs to. */
  ghost predicate Owns(t: Table, raw: string, id: Id) {
    id in t && t[id].tokenHash == HashToken(raw)
  }

  /** `t'` is `t`, but that the live sessions `chosen` picks are revoked now. */
  ghost predicate RevokesJust(t: Table, t': Table, chosen: Session -> bool, now: Instant) {
    && t'.Keys == t.Keys
    && forall id | id in t ::
         t'[id] == if chosen(t[id]) && t[id].revokedAt == None then t[id].(revokedAt := Some(now)) else t[id]
  }

  /** The session a rotation leaves behind: a live one of the same family, owner and device, under the new token. */
  predicate Replaces(prior: Session, next: Session, newRaw: string) {
    && next.familyId == prior.familyId && next.userId == prior.userId
    && next.ip == prior.ip && next.userAgent == prior.userAgent
    && next.tokenHash == HashToken(newRaw) && next.revokedAt == None
  }

  /**
   What Rotate answers, run alone, and what it leaves: a token of no session is invalid and changes nothing;
   one of a revoked session is reuse and revokes its family and no other; one of a live session is exchanged,
   or nothing changes when the store refuses the new row.
   */
  lemma RotateAnswers(t: Table, raw: string, newId: Id, newRaw: string, now: Instant)
    requires WellFormed(t)
    ensures var (t', r) := RotateOnce(t, raw, newId, newRaw, now);
      && (r == InvalidToken <==> forall id :: !Owns(t, raw, id))
      && (r == InvalidToken ==> t' == t)
      && (forall id | Owns(t, raw, id) :: RotateAnswersOwner(t, t[id], t', r, newId, newRaw, now))
  {
    hide FinishRotation;
    forall id | Owns(t, raw, id)
      ensures RowByHash(t, HashToken(raw)) == Some(t[id])
      ensures var (t', r) := FinishRotation(t, t[id], newId, newRaw, now); RotateAnswersOwner(t, t[id], t', r, newId, newRaw, now)
    {
      assert HasHash(t, HashToken(raw));
      OwnerIsAnswered(t, id, newId, newRaw, now);
    }
    if forall id :: !Owns(t, raw, id) {
      assert !HasHash(t, HashToken(raw));
    }
  }

  lemma OwnerIsAnswered(t: Table, id: Id, newId: Id, newRaw: string, now: Instant)
    requires WellFormed(t) && id in t
    ensures var (t', r) := FinishRotation(t, t[id], newId, newRaw, now); RotateAnswersOwner(t, t[id], t', r, newId, newRaw, now)
  {
    if t[id].Live() {
      hide RotateRows, HasHash;
      var next := Successor(t[id], newId, newRaw);
      LiveRowRotates(t, id, next, now);
      if newId !in t {
        assert t[id := t[id].Stamped(now)][newId := next.Inserted(now)] - {newId} == t[id := t[id].Stamped(now)];
      }
    }
  }

  lemma LiveRowRotates(t: Table, id: Id, next: Session, now: Instant)
    requires WellFormed(t) && id in t && t[id].Live()
    ensures RotateRows(t, id, next, now) ==
      if next.id !in t && !HasHash(t, next.tokenHash) then Ok(t[id := t[id].Stamped(now)][next.id := next.Inserted(now)])
      else Err(ConstraintViolation)
  {
    UnchangedHashes(t, t[id := t[id].Stamped(now)]);
  }

  lemma UnchangedHashes(t: Table, t': Table)
    requires t'.Keys == t.Keys && forall id | id in t :: t'[id].tokenHash == t[id].tokenHash
    ensures forall h :: HasHash(t', h) <==> HasHash(t, h)
  {
  }

  ghost predicate RotateAnswersOwner(t: Table, owner: Session, t': Table, r: Rotation, newId: Id, newRaw: string, now: Instant) {
    if owner.revokedAt != None then
      r == TokenReused(owner) && RevokesJust(t, t', (s: Session) => s.familyId == owner.familyId, now)
    else if newId !in t && !HasHash(t, HashToken(newRaw)) then
      && r.Rotated? && r.raw == newRaw && r.session.id == newId && Replaces(owner, r.session, newRaw)
      && newId in t' && t'[newId] == r.session.(createdAt := now)
      && RevokesJust(t, t' - {newId}, (s: Session) => s.id == owner.id, now)
    else r == StoreFailed(ConstraintViolation) && t' == t
  }

  /** Each store call revokes, deletes or adds just what it names, and keeps first revocation times. */
  lemma StoreCallsTouchTheirOwn(t: Table, key: Id, s: Session, now: Instant)
    requires WellFormed(t)
    ensures RevokesJust(t, RevokeFamilyRows(t, key, now), (row: Session) => row.familyId == key, now)
    ensures RevokesJust(t, RevokeUserRows(t, key, now), (row: Session) => row.userId == key, now)
    ensures RevokeRow(t, key, now).Ok? <==> key in t && t[key].revokedAt == None
    ensures RevokeRow(t, key, now).Ok? ==> RevokesJust(t, RevokeRow(t, key, now).value, (row: Session) => row.id == key, now)
    ensures forall id :: id in DeleteUserRows(t, key) <==> id in t && t[id].userId != key
    ensures forall id | id in DeleteUserRows(t, key) :: DeleteUserRows(t, key)[id] == t[id]
    ensures InsertRow(t, s, now).Ok? <==> s.id !in t && forall id | id in t :: t[id].tokenHash != s.tokenHash
    ensures InsertRow(t, s, now).Ok? ==> InsertRow(t, s, now).value == t[s.id := s.(createdAt := now, revokedAt := None)]
  {
  }

  /** The SQLite store: every method is one statement, or one transaction with rollback. */
  class SqliteSessionStore {
    var rows: Table

    constructor ()
      ensures rows == map[] && WellFormed(rows)
    {
      rows := map[];
    }

    method Create(s: Session, now: Instant) returns (r: Result<(), StoreError>)
      requires WellFormed(rows)
      modifies this
      ensures WellFormed(rows)
      ensures r.Ok? <==> InsertRow(old(rows), s, now).Ok?
      ensures r.Ok? ==> Ok(rows) == InsertRow(old(rows), s, now)
      ensures r.Err? ==> r.error == ConstraintViolation && rows == old(rows)
    {
      if s.id in rows || exists id | id in rows :: rows[id].tokenHash == s.tokenHash {
        return Err(ConstraintViolation);
      }
      rows := rows[s.id := s.Inserted(now)];
      return Ok(());
    }

    method GetByTokenHash(h: Digest) returns (r: Result<Session, StoreError>)
      requires WellFormed(rows)
      ensures r == match RowByHash(rows, h) case None => Err(NotFound) case Some(s) => Ok(s)
    {
      if exists id | id in rows :: rows[id].tokenHash == h {
        var id :| id in rows && rows[id].tokenHash == h;
        return Ok(rows[id]);
      }
      return Err(NotFound);
    }

    method Revoke(id: Id, now: Instant) returns (r: Result<(), StoreError>)
      modifies this
      ensures r.Ok? <==> RevokeRow(old(rows), id, now).Ok?
      ensures r.Ok? ==> Ok(rows) == RevokeRow(old(rows), id, now)
      ensures r.Err? ==> r.error == NotFound && rows == old(rows)
    {
      if id !in rows || !rows[id].Live() {
        return Err(NotFound);
      }
      rows := rows[id := rows[id].(revokedAt := Some(now))];
      return Ok(());
    }

    method RevokeFamily(familyId: Id, now: Instant)
      modifies this
      ensures rows == RevokeFamilyRows(old(rows), familyId, now)
    {
      rows := map id | id in rows ::
        if rows[id].familyId == familyId && rows[id].Live() then rows[id].(revokedAt := Some(now)) else rows[id];
    }

    method RevokeAllForUser(userId: Id, now: Instant)
      modifies this
      ensures rows == RevokeUserRows(old(rows), userId, now)
    {
      rows := map id | id in rows ::
        if rows[id].userId == userId && rows[id].Live() then rows[id].(revokedAt := Some(now)) else rows[id];
    }

    method RotateToken(oldId: Id, next: Session, now: Instant) returns (r: Result<(), StoreError>)
      requires WellFormed(rows)
      modifies this
      ensures WellFormed(rows)
      ensures match RotateRows(old(rows), oldId, next, now)
              case Ok(t) => r.Ok? && rows == t
              case Err(e) => r == Err(e) && rows == old(rows)
    {
      var before := rows;
      r := Revoke(oldId, now);
      if r.Err? {
        return;
      }
      assert WellFormed(rows) by {
        assert forall id | id in rows :: rows[id].tokenHash == before[id].tokenHash && rows[id].id == before[id].id;
      }
      r := Create(next, now);
      if r.Err? {
        rows := before; // rollback
      }
    }

    /** Rotate, run alone against this store. */
    method Rotate(raw: string, newId: Id, newRaw: string, now: Instant) returns (r: Rotation)
      requires WellFormed(rows)
      modifies this
      ensures WellFormed(rows)
      ensures (rows, r) == RotateOnce(old(rows), raw, newId, newRaw, now)
    {
      var read := GetByTokenHash(HashToken(raw));
      if read.Err? {
        return InvalidToken;
      }
      var existing := read.value;
      if !existing.Live() {
        RevokeFamily(existing.familyId, now);
        return TokenReused(existing);
      }
      var newSession := Successor(existing, newId, newRaw);
      var w := RotateToken(existing.id, newSession, now);
      if w.Err? {
        return StoreFailed(w.error);
      }
      return Rotated(newRaw, newSession);
    }
  }

  /** An unguarded rotation: the old row is stamped whether or not it was revoked already. */
  ghost function RotateUnguarded(t: Table, oldId: Id, next: Session, now: Instant): Result<Table, StoreError> {
    if oldId !in t then Err(NotFound)
    else Ok(t[oldId := t[oldId].(revokedAt := Some(now))][next.id := next.(createdAt := now)])
  }

  ghost function RevokeUnguarded(t: Table, id: Id, now: Instant): Result<Table, StoreError> {
    if id !in t then Err(NotFound) else Ok(t[id := t[id].(revokedAt := Some(now))])
  }

  /** The in-memory store. */
  class MemorySessionStore {
    var byID: Table

    constructor ()
      ensures byID == map[]
    {
      byID := map[];
    }

    /** For a fresh session, the guarded insert; on a used id or hash nothing is refused here. */
    method Create(s: Session, now: Instant)
      modifies this
      ensures byID == old(byID)[s.id := s.(createdAt := now)]
      ensures Insertable(old(byID), s) && s.Live() ==> Ok(byID) == InsertRow(old(byID), s, now)
    {
      byID := byID[s.id := s.(createdAt := now)];
    }

    method RevokeAllForUser(userId: Id, now: Instant)
      modifies this
      ensures byID == RevokeUserRows(old(byID), userId, now)
    {
      var todo := byID.Keys;
      while todo != {}
        invariant todo <= old(byID).Keys == byID.Keys
        invariant forall id | id in byID ::
          byID[id] == if id in todo then old(byID)[id] else RevokeUserRows(old(byID), userId, now)[id]
      {
        var id :| id in todo;
        var sess := byID[id];
        if sess.userId == userId && sess.Live() {
          byID := byID[id := sess.(revokedAt := Some(now))];
        }
        todo := todo - {id};
      }
    }

    method GetByTokenHash(h: Digest) returns (r: Result<Session, StoreError>)
      requires WellFormed(byID)
      ensures r == match RowByHash(byID, h) case None => Err(NotFound) case Some(s) => Ok(s)
    {
      var todo := byID.Keys;
      while todo != {}
        invariant todo <= byID.Keys
        invariant forall id | id in byID && id !in todo :: byID[id].tokenHash != h
      {
        var id :| id in todo;
        if byID[id].tokenHash == h {
          return Ok(byID[id]);
        }
        todo := todo - {id};
      }
      return Err(NotFound);
    }

    method Revoke(id: Id, now: Instant) returns (r: Result<(), StoreError>)
      modifies this
      ensures match RevokeUnguarded(old(byID), id, now)
              case Ok(t) => r.Ok? && byID == t
              case Err(e) => r == Err(e) && byID == old(byID)
    {
      if id !in byID {
        return Err(NotFound);
      }
      byID := byID[id := byID[id].(revokedAt := Some(now))];
      return Ok(());
    }

    method RevokeFamily(familyId: Id, now: Instant)
      modifies this
      ensures byID == RevokeFamilyRows(old(byID), familyId, now)
    {
      var todo := byID.Keys;
      while todo != {}
        invariant todo <= old(byID).Keys == byID.Keys
        invariant forall id | id in byID ::
          byID[id] == if id in todo then old(byID)[id] else RevokeFamilyRows(old(byID), familyId, now)[id]
      {
        var id :| id in todo;
        var sess := byID[id];
        if sess.familyId == familyId && sess.Live() {
          byID := byID[id := sess.(revokedAt := Some(now))];
        }
        todo := todo - {id};
      }
    }

    method RotateToken(oldId: Id, next: Session, now: Instant) returns (r: Result<(), StoreError>)
      modifies this
      ensures match RotateUnguarded(old(byID), oldId, next, now)
              case Ok(t) => r.Ok? && byID == t
              case Err(e) => r == Err(e) && byID == old(byID)
    {
      if oldId !in byID {
        return Err(NotFound);
      }
      byID := byID[oldId := byID[oldId].(revokedAt := Some(now))];
      byID := byID[next.id := next.(createdAt := now)];
      return Ok(());
    }

    /** Rotate, run alone, does to the map what it does to the guarded table. */
    method Rotate(raw: string, newId: Id, newRaw: string, now: Instant) returns (r: Rotation)
      requires WellFormed(byID)
      requires newId !in byID && !HasHash(byID, HashToken(newRaw))
      modifies this
      ensures (byID, r) == RotateOnce(old(byID), raw, newId, newRaw, now)
    {
      var read := GetByTokenHash(HashToken(raw));
      if read.Err? {
        return InvalidToken;
      }
      var existing := read.value;
      if !existing.Live() {
        RevokeFamily(existing.familyId, now);
        return TokenReused(existing);
      }
      var newSession := Successor(existing, newId, newRaw);
      UnguardedRotationAgrees(byID, existing.id, newSession, now);
      var w := RotateToken(existing.id, newSession, now);
      if w.Err? {
        assert false; // the row that was just read is still there
      }
      return Rotated(newRaw, newSession);
    }
  }

  /** The unguarded rotation is the guarded one exactly when the old row is not already revoked. */
  lemma UnguardedRotationAgrees(t: Table, oldId: Id, next: Session, now: Instant)
    requires WellFormed(t) && Insertable(t, next) && next.revokedAt.None?
    ensures RotateUnguarded(t, oldId, next, now) == RotateRows(t, oldId, next, now)
            <==> (oldId in t ==> t[oldId].Live())
  {
    if oldId in t && t[oldId].Live() {
      var t' := t[oldId := t[oldId].Stamped(now)];
      assert forall id | id in t' :: t'[id].tokenHash == t[id].tokenHash;
      assert Insertable(t', next);
    }
  }

  /** The unguarded Revoke is the guarded one exactly when the session is not already revoked. */
  lemma UnguardedRevocationAgrees(t: Table, id: Id, now: Instant)
    ensures RevokeUnguarded(t, id, now) == RevokeRow(t, id, now) <==> (id in t ==> t[id].Live())
  {
  }
}
