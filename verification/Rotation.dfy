/**
 Refresh-token rotation as a protocol over one shared session table.

 A rotation is two steps: a client reads the row of the token it was shown, and later writes.
 Any other call may come between. Each store call is one atomic step, as under SQLite's single
 writer. Generated ids and raw tokens are never repeated.
 */
module Rotation {
  import opened Wrappers
  import opened Sessions

  type Client = nat

  /** One successful exchange of a refresh token: the row it belonged to and the row that replaced it. */
  datatype Exchange = Exchange(token: Digest, from: Id, to: Id)

  datatype State = State(
    rows: Table,
    usedIds: set<Id>,
    issued: map<Digest, Id>,        // every token ever issued, with the id of its row
    inFlight: map<Client, Session>, // rotations under way, with the row each of them read
    exchanges: seq<Exchange>)       // history, read by the properties only

  const INIT := State(map[], {}, map[], map[], [])

  datatype Event =
    | Login(id: Id, userId: Id, raw: string, ip: string, userAgent: string)
    | BeginRotate(client: Client, presented: string)
    | FinishRotate(client: Client, newId: Id, newRaw: string)
    | Logout(sessionId: Id)
    | LogoutAll(user: Id)
    | DeleteUser(deleted: Id)

  /** An event with the clock reading its store call used; clocks need not agree or advance. */
  datatype Step = Step(now: Instant, event: Event)

  predicate Unused(s: State, id: Id, raw: string) {
    id !in s.usedIds && HashToken(raw) !in s.issued
  }

  predicate Enabled(s: State, step: Step) {
    match step.event
    case Login(id, _, raw, _, _) => Unused(s, id, raw)
    case BeginRotate(c, _) => c !in s.inFlight
    case FinishRotate(c, id, raw) => c in s.inFlight && Unused(s, id, raw)
    case _ => true
  }

  /** The row a login writes: its own id is its family's. */
  function LoginSession(e: Event): Session
    requires e.Login?
  {
    Session(e.id, e.id, e.userId, HashToken(e.raw), e.ip, e.userAgent, 0, None)
  }

  ghost function OrSame(t: Table, r: Result<Table, StoreError>): Table {
    if r.Ok? then r.value else t
  }

  ghost function Next(s: State, step: Step): State
    requires Enabled(s, step)
  {
    match step.event
    case Login(id, _, raw, _, _) =>
      s.(rows := OrSame(s.rows, InsertRow(s.rows, LoginSession(step.event), step.now)),
         usedIds := s.usedIds + {id},
         issued := s.issued[HashToken(raw) := id])
    case BeginRotate(c, raw) =>
      (match RowByHash(s.rows, HashToken(raw))
       case None => s
       case Some(row) => s.(inFlight := s.inFlight[c := row]))
    case FinishRotate(c, id, raw) =>
      var seen := s.inFlight[c];
      var (t, answer) := FinishRotation(s.rows, seen, id, raw, step.now);
      State(t, s.usedIds + {id}, s.issued[HashToken(raw) := id], s.inFlight - {c},
            if answer.Rotated? then s.exchanges + [Exchange(seen.tokenHash, seen.id, id)] else s.exchanges)
    case Logout(id) => s.(rows := OrSame(s.rows, RevokeRow(s.rows, id, step.now)))
    case LogoutAll(u) => s.(rows := RevokeUserRows(s.rows, u, step.now))
    case DeleteUser(u) => s.(rows := DeleteUserRows(s.rows, u))
  }

  /** What the client of a FinishRotate step is told. */
  ghost function Answer(s: State, step: Step): Rotation
    requires Enabled(s, step) && step.event.FinishRotate?
  {
    FinishRotation(s.rows, s.inFlight[step.event.client], step.event.newId, step.event.newRaw, step.now).1
  }

  ghost predicate Possible(s: State, steps: seq<Step>)
    decreases |steps|
  {
    steps == [] || (Enabled(s, steps[0]) && Possible(Next(s, steps[0]), steps[1..]))
  }

  ghost function Run(s: State, steps: seq<Step>): State
    requires Possible(s, steps)
    decreases |steps|
  {
    if steps == [] then s else Run(Next(s, steps[0]), steps[1..])
  }

  // ----- What is claimed of every state a run reaches -----

  ghost predicate AtMostOneLive(t: Table) {
    forall i, j | i in t && j in t && t[i].familyId == t[j].familyId && t[i].Live() && t[j].Live() :: i == j
  }

  /** `chain` lists the sessions of one family, root first, each exchanged for the next. */
  ghost predicate IsChain(s: State, family: Id, chain: seq<Id>) {
    && |chain| > 0
    && chain[0] == family
    && (forall i, j | 0 <= i < j < |chain| :: chain[i] != chain[j])
    && (forall id :: id in chain <==> id in s.rows && s.rows[id].familyId == family)
    && (forall i | 0 <= i < |chain| - 1 :: !s.rows[chain[i]].Live())
    && (forall i | 0 <= i < |chain| - 1 :: Linked(s, chain, i))
    && (forall i | 0 <= i < |chain| :: SameHolder(s.rows[chain[i]], s.rows[family]))
  }

  /** The same owner, on the device the family was started from. */
  predicate SameHolder(a: Session, b: Session) {
    a.userId == b.userId && a.ip == b.ip && a.userAgent == b.userAgent
  }

  /** The i-th session of the chain was exchanged for the one after it. */
  ghost predicate Linked(s: State, chain: seq<Id>, i: nat)
    requires i < |chain| - 1
  {
    exists e :: e in s.exchanges && e.from == chain[i] && e.to == chain[i + 1]
  }

  ghost predicate HasChain(s: State, family: Id) {
    exists chain :: IsChain(s, family, chain)
  }

  ghost predicate EachFamilyIsAChain(s: State) {
    forall id | id in s.rows :: HasChain(s, s.rows[id].familyId)
  }

  ghost predicate EachTokenExchangedOnce(s: State) {
    forall i, j | 0 <= i < j < |s.exchanges| :: s.exchanges[i].token != s.exchanges[j].token
  }

  /** The family has been started and none of its sessions is live. */
  ghost predicate Dead(s: State, family: Id) {
    family in s.usedIds && forall id | id in s.rows && s.rows[id].familyId == family :: !s.rows[id].Live()
  }

  // ----- The invariant -----

  /** Rows, reads and exchanges only mention issued ids and tokens. */
  ghost predicate Accounted(s: State) {
    && (forall id | id in s.rows :: RowAccounted(s, id, s.rows[id]))
    && (forall c | c in s.inFlight :: RowAccounted(s, s.inFlight[c].id, s.inFlight[c]))
    && (forall e | e in s.exchanges :: e.from in s.usedIds && e.token in s.issued && s.issued[e.token] == e.from)
  }

  predicate RowAccounted(s: State, id: Id, row: Session) {
    && row.id == id
    && id in s.usedIds
    && row.familyId in s.usedIds
    && row.tokenHash in s.issued
    && s.issued[row.tokenHash] == id
  }

  /** `after` is `before`, but for a first revocation. */
  predicate SameButRevoked(before: Session, after: Session) {
    && after == before.(revokedAt := after.revokedAt)
    && (before.Live() || after == before)
  }

  ghost predicate ReadsAreRows(s: State) {
    forall c | c in s.inFlight && s.inFlight[c].id in s.rows :: SameButRevoked(s.inFlight[c], s.rows[s.inFlight[c].id])
  }

  ghost predicate SpentRowsAreRevoked(s: State) {
    forall e | e in s.exchanges && e.from in s.rows :: !s.rows[e.from].Live()
  }

  ghost predicate Inv(s: State) {
    && Accounted(s)
    && ReadsAreRows(s)
    && SpentRowsAreRevoked(s)
    && EachFamilyIsAChain(s)
    && EachTokenExchangedOnce(s)
  }

  lemma AccountedIsWellFormed(s: State)
    requires Accounted(s)
    ensures WellFormed(s.rows)
  {
    forall i, j | i in s.rows && j in s.rows && s.rows[i].tokenHash == s.rows[j].tokenHash ensures i == j {
      assert RowAccounted(s, i, s.rows[i]) && RowAccounted(s, j, s.rows[j]);
    }
  }

  /** In a chain only the last session can be live. */
  lemma ChainsLeaveOneLive(s: State)
    requires EachFamilyIsAChain(s)
    ensures AtMostOneLive(s.rows)
  {
    forall i, j | i in s.rows && j in s.rows && s.rows[i].familyId == s.rows[j].familyId && s.rows[i].Live() && s.rows[j].Live()
      ensures i == j
    {
      assert HasChain(s, s.rows[i].familyId);
      var chain :| IsChain(s, s.rows[i].familyId, chain);
      assert i in chain && j in chain;
    }
  }

  // ----- The four things a step can do to the table -----

  ghost predicate Stamping(s: State, s': State) {
    && s'.rows.Keys == s.rows.Keys
    && (forall id | id in s.rows :: SameButRevoked(s.rows[id], s'.rows[id]))
    && s'.exchanges == s.exchanges
    && s.usedIds <= s'.usedIds
  }

  ghost predicate Deleting(s: State, s': State, user: Id) {
    && s'.rows == DeleteUserRows(s.rows, user)
    && s'.exchanges == s.exchanges
    && s.usedIds <= s'.usedIds
  }

  ghost predicate Starting(s: State, s': State, root: Session) {
    && root.id == root.familyId
    && root.id !in s.usedIds
    && s'.rows == s.rows[root.id := root]
    && s'.exchanges == s.exchanges
    && s'.usedIds == s.usedIds + {root.id}
  }

  ghost predicate Rotating(s: State, s': State, seen: Session, next: Session, now: Instant) {
    && seen.id in s.rows
    && s.rows[seen.id].Live()
    && s.rows[seen.id] == seen
    && next.id !in s.usedIds
    && next.familyId == seen.familyId
    && SameHolder(next, seen)
    && s'.rows == s.rows[seen.id := seen.Stamped(now)][next.id := next]
    && s'.exchanges == s.exchanges + [Exchange(seen.tokenHash, seen.id, next.id)]
    && s'.usedIds == s.usedIds + {next.id}
  }

  lemma StepIsOneOfFour(s: State, step: Step)
    requires Accounted(s) && ReadsAreRows(s) && Enabled(s, step)
    ensures var s' := Next(s, step);
      || Stamping(s, s')
      || (step.event.DeleteUser? && Deleting(s, s', step.event.deleted))
      || (step.event.Login? && Starting(s, s', LoginSession(step.event).Inserted(step.now)))
      || (step.event.FinishRotate? && Answer(s, step).Rotated? &&
          var seen := s.inFlight[step.event.client];
          Rotating(s, s', seen, Successor(seen, step.event.newId, step.event.newRaw).Inserted(step.now), step.now))
  {
    match step.event
    case Login(id, _, raw, _, _) =>
      assert forall i | i in s.rows :: RowAccounted(s, i, s.rows[i]);
      assert Insertable(s.rows, LoginSession(step.event));
    case FinishRotate(c, _, _) =>
      assert RowAccounted(s, s.inFlight[c].id, s.inFlight[c]);
    case _ =>
  }

  /** Ids and hashes once drawn stay drawn, so what was accounted for stays so. */
  lemma StepKeepsRowAccounted(s: State, step: Step, id: Id, row: Session)
    requires Accounted(s) && ReadsAreRows(s) && Enabled(s, step) && RowAccounted(s, id, row)
    ensures RowAccounted(Next(s, step), id, row)
  {
    StepIsOneOfFour(s, step);
  }

  lemma StepKeepsRowsAccounted(s: State, step: Step, id: Id)
    requires Accounted(s) && ReadsAreRows(s) && Enabled(s, step) && id in Next(s, step).rows
    ensures RowAccounted(Next(s, step), id, Next(s, step).rows[id])
  {
    StepIsOneOfFour(s, step);
    if id in s.rows {
      assert RowAccounted(s, id, s.rows[id]);
      StepKeepsRowAccounted(s, step, id, s.rows[id]);
    }
  }

  lemma StepKeepsReadsAccounted(s: State, step: Step, c: Client)
    requires Accounted(s) && ReadsAreRows(s) && Enabled(s, step) && c in Next(s, step).inFlight
    ensures RowAccounted(Next(s, step), Next(s, step).inFlight[c].id, Next(s, step).inFlight[c])
  {
    StepIsOneOfFour(s, step);
    var row := Next(s, step).inFlight[c];
    if c in s.inFlight {
      StepKeepsRowAccounted(s, step, row.id, row);
    } else {
      var id :| id in s.rows && s.rows[id] == row;
      assert RowAccounted(s, id, row);
      StepKeepsRowAccounted(s, step, id, row);
    }
  }

  lemma StepKeepsAccounted(s: State, step: Step)
    requires Accounted(s) && ReadsAreRows(s) && Enabled(s, step)
    ensures Accounted(Next(s, step))
  {
    var s' := Next(s, step);
    forall id | id in s'.rows ensures RowAccounted(s', id, s'.rows[id]) {
      StepKeepsRowsAccounted(s, step, id);
    }
    forall c | c in s'.inFlight ensures RowAccounted(s', s'.inFlight[c].id, s'.inFlight[c]) {
      StepKeepsReadsAccounted(s, step, c);
    }
  }

  lemma StepKeepsReads(s: State, step: Step)
    requires Accounted(s) && ReadsAreRows(s) && Enabled(s, step)
    ensures ReadsAreRows(Next(s, step))
  {
    StepIsOneOfFour(s, step);
    var s' := Next(s, step);
    forall c | c in s'.inFlight && s'.inFlight[c].id in s'.rows
      ensures SameButRevoked(s'.inFlight[c], s'.rows[s'.inFlight[c].id])
    {
      if c in s.inFlight {
        assert RowAccounted(s, s.inFlight[c].id, s.inFlight[c]);
      } else {
        var row := s'.inFlight[c];
        var id :| id in s.rows && s.rows[id] == row;
        assert RowAccounted(s, id, row);
      }
    }
  }

  lemma StepKeepsSpent(s: State, step: Step)
    requires Accounted(s) && ReadsAreRows(s) && Enabled(s, step)
    requires SpentRowsAreRevoked(s) && EachTokenExchangedOnce(s)
    ensures SpentRowsAreRevoked(Next(s, step)) && EachTokenExchangedOnce(Next(s, step))
  {
    StepIsOneOfFour(s, step);
    var s' := Next(s, step);
    if step.event.FinishRotate? && Answer(s, step).Rotated? {
      var seen := s.inFlight[step.event.client];
      assert RowAccounted(s, seen.id, seen);
      forall i | 0 <= i < |s.exchanges| ensures s.exchanges[i].token != seen.tokenHash {
        assert s.exchanges[i] in s.exchanges;
      }
    }
  }

  /** A chain whose family keeps its rows, up to revocation, and whose exchanges are remembered, is still a chain. */
  lemma ChainCarriesOver(s: State, s': State, family: Id)
    requires HasChain(s, family)
    requires forall id :: (id in s.rows && s.rows[id].familyId == family) <==> (id in s'.rows && s'.rows[id].familyId == family)
    requires forall id | id in s.rows && s.rows[id].familyId == family :: SameButRevoked(s.rows[id], s'.rows[id])
    requires forall e | e in s.exchanges :: e in s'.exchanges
    ensures HasChain(s', family)
  {
    var chain :| IsChain(s, family, chain);
    assert chain[0] in chain;
    forall i | 0 <= i < |chain| ensures chain[i] in s.rows && chain[i] in s'.rows && SameButRevoked(s.rows[chain[i]], s'.rows[chain[i]]) {
      assert chain[i] in chain;
    }
    forall i | 0 <= i < |chain| - 1 ensures Linked(s', chain, i) {
      assert Linked(s, chain, i);
    }
    assert IsChain(s', family, chain);
  }

  /** Deleting a user removes whole families: a family has one owner. */
  lemma DeletingKeepsChains(s: State, s': State, user: Id)
    requires EachFamilyIsAChain(s) && Deleting(s, s', user)
    ensures EachFamilyIsAChain(s')
  {
    hide HasChain;
    forall id | id in s'.rows ensures HasChain(s', s'.rows[id].familyId) {
      WholeFamilyStays(s, s', user, id);
      ChainCarriesOver(s, s', s.rows[id].familyId);
    }
  }

  lemma WholeFamilyStays(s: State, s': State, user: Id, id: Id)
    requires EachFamilyIsAChain(s) && Deleting(s, s', user) && id in s'.rows
    ensures forall j | j in s.rows && s.rows[j].familyId == s.rows[id].familyId :: j in s'.rows
  {
    var f := s.rows[id].familyId;
    assert HasChain(s, f);
    var chain :| IsChain(s, f, chain);
    assert id in chain;
    forall j | j in s.rows && s.rows[j].familyId == f ensures j in s'.rows {
      assert j in chain;
    }
  }

  lemma LiveSessionIsLast(s: State, family: Id, chain: seq<Id>, id: Id)
    requires IsChain(s, family, chain) && id in s.rows && s.rows[id].familyId == family && s.rows[id].Live()
    ensures chain[|chain| - 1] == id
  {
    assert id in chain;
  }

  lemma ChainOwner(s: State, family: Id, chain: seq<Id>)
    requires IsChain(s, family, chain)
    ensures forall id | id in chain :: id in s.rows && SameHolder(s.rows[id], s.rows[chain[|chain| - 1]])
    ensures family in chain
  {
    assert chain[0] in chain && chain[|chain| - 1] in chain;
  }

  /** The family's chain ended in the session that was read, and goes on with its successor. */
  ghost predicate Extends(s: State, s': State, seen: Session, next: Session, chain: seq<Id>) {
    && IsChain(s, seen.familyId, chain) && chain[|chain| - 1] == seen.id
    && IsChain(s', seen.familyId, chain + [next.id])
  }

  /** The chain a rotation goes through on grows by its successor, at its end. */
  lemma RotatingGrowsChain(s: State, s': State, seen: Session, next: Session, now: Instant)
    requires Accounted(s) && EachFamilyIsAChain(s) && Rotating(s, s', seen, next, now)
    ensures exists chain :: Extends(s, s', seen, next, chain)
  {
    assert HasChain(s, seen.familyId);
    var chain :| IsChain(s, seen.familyId, chain);
    LiveSessionIsLast(s, seen.familyId, chain, seen.id);
    ChainOwner(s, seen.familyId, chain);
    forall i: nat | i < |chain| ensures Linked(s', chain + [next.id], i) {
      LinkGrows(s, s', chain, next.id, Exchange(seen.tokenHash, seen.id, next.id), i);
    }
    assert next.id !in s.rows by {
      assert next.id in s.rows ==> RowAccounted(s, next.id, s.rows[next.id]);
    }
    LongerIsChain(s, s', chain, seen, next, now);
    assert Extends(s, s', seen, next, chain);
  }

  lemma LongerIsChain(s: State, s': State, chain: seq<Id>, seen: Session, next: Session, now: Instant)
    requires IsChain(s, seen.familyId, chain) && Rotating(s, s', seen, next, now)
    requires chain[|chain| - 1] == seen.id && seen.familyId in chain && next.id !in s.rows
    requires forall id | id in chain :: id in s.rows && SameHolder(s.rows[id], seen)
    requires forall i: nat | i < |chain| :: Linked(s', chain + [next.id], i)
    ensures IsChain(s', seen.familyId, chain + [next.id])
  {
    var longer := chain + [next.id];
    forall i | 0 <= i < |longer| ensures longer[i] in s'.rows && SameHolder(s'.rows[longer[i]], seen) {
      assert i < |chain| ==> chain[i] in chain;
    }
    forall i | 0 <= i < |longer| - 1 ensures longer[i] == chain[i] && chain[i] in chain && !s'.rows[longer[i]].Live() {
    }
  }

  lemma LinkGrows(s: State, s': State, chain: seq<Id>, id: Id, last: Exchange, i: nat)
    requires i < |chain| && last.from == chain[|chain| - 1] && last.to == id
    requires i < |chain| - 1 ==> Linked(s, chain, i)
    requires s'.exchanges == s.exchanges + [last]
    ensures Linked(s', chain + [id], i)
  {
    var longer := chain + [id];
    if i == |chain| - 1 {
      assert last in s'.exchanges && last.from == longer[i] && last.to == longer[i + 1];
    } else {
      var e :| e in s.exchanges && e.from == chain[i] && e.to == chain[i + 1];
      assert e in s'.exchanges && e.from == longer[i] && e.to == longer[i + 1];
    }
  }

  lemma RotatedHasChain(s: State, s': State, seen: Session, next: Session, now: Instant)
    requires Accounted(s) && EachFamilyIsAChain(s) && Rotating(s, s', seen, next, now)
    ensures HasChain(s', seen.familyId)
  {
    RotatingGrowsChain(s, s', seen, next, now);
    var chain :| Extends(s, s', seen, next, chain);
  }

  lemma RotatingKeepsChains(s: State, s': State, seen: Session, next: Session, now: Instant)
    requires Accounted(s) && EachFamilyIsAChain(s) && Rotating(s, s', seen, next, now)
    ensures EachFamilyIsAChain(s')
  {
    hide HasChain;
    forall id | id in s'.rows ensures HasChain(s', s'.rows[id].familyId) {
      if s'.rows[id].familyId == seen.familyId {
        RotatedHasChain(s, s', seen, next, now);
      } else {
        ChainCarriesOver(s, s', s.rows[id].familyId);
      }
    }
  }

  lemma StartingKeepsChains(s: State, s': State, root: Session)
    requires Accounted(s) && EachFamilyIsAChain(s) && Starting(s, s', root)
    ensures EachFamilyIsAChain(s')
  {
    forall id | id in s.rows ensures s.rows[id].familyId != root.id && id != root.id {
      assert RowAccounted(s, id, s.rows[id]);
    }
    forall id | id in s'.rows ensures HasChain(s', s'.rows[id].familyId) {
      if id == root.id {
        assert IsChain(s', root.id, [root.id]);
      } else {
        ChainCarriesOver(s, s', s.rows[id].familyId);
      }
    }
  }

  lemma StampingKeepsChains(s: State, s': State)
    requires EachFamilyIsAChain(s) && Stamping(s, s')
    ensures EachFamilyIsAChain(s')
  {
    forall id | id in s'.rows ensures HasChain(s', s'.rows[id].familyId) {
      ChainCarriesOver(s, s', s.rows[id].familyId);
    }
  }

  lemma StepKeepsChains(s: State, step: Step)
    requires Accounted(s) && ReadsAreRows(s) && EachFamilyIsAChain(s) && Enabled(s, step)
    ensures EachFamilyIsAChain(Next(s, step))
  {
    StepIsOneOfFour(s, step);
    var s' := Next(s, step);
    if Stamping(s, s') {
      StampingKeepsChains(s, s');
    } else if step.event.DeleteUser? {
      DeletingKeepsChains(s, s', step.event.deleted);
    } else if step.event.Login? {
      StartingKeepsChains(s, s', LoginSession(step.event).Inserted(step.now));
    } else {
      var seen := s.inFlight[step.event.client];
      RotatingKeepsChains(s, s', seen, Successor(seen, step.event.newId, step.event.newRaw).Inserted(step.now), step.now);
    }
  }

  lemma StepKeepsInv(s: State, step: Step)
    requires Inv(s) && Enabled(s, step)
    ensures Inv(Next(s, step))
  {
    StepKeepsAccounted(s, step);
    StepKeepsReads(s, step);
    StepKeepsSpent(s, step);
    StepKeepsChains(s, step);
  }

  lemma {:induction false} RunKeepsInv(s: State, steps: seq<Step>)
    requires Inv(s) && Possible(s, steps)
    ensures Inv(Run(s, steps))
    decreases |steps|
  {
    if steps != [] {
      StepKeepsInv(s, steps[0]);
      RunKeepsInv(Next(s, steps[0]), steps[1..]);
    }
  }

  // ----- Main results -----

  /** Under every interleaving: one live session a family, each family one chain, each token exchanged once. */
  lemma EveryRunIsSafe(steps: seq<Step>)
    requires Possible(INIT, steps)
    ensures AtMostOneLive(Run(INIT, steps).rows)
    ensures EachFamilyIsAChain(Run(INIT, steps))
    ensures EachTokenExchangedOnce(Run(INIT, steps))
    ensures WellFormed(Run(INIT, steps).rows)
  {
    RunKeepsInv(INIT, steps);
    ChainsLeaveOneLive(Run(INIT, steps));
    AccountedIsWellFormed(Run(INIT, steps));
  }

  lemma StepKeepsDead(s: State, step: Step, family: Id)
    requires Inv(s) && Enabled(s, step) && Dead(s, family)
    ensures Dead(Next(s, step), family)
  {
    StepIsOneOfFour(s, step);
  }

  /** A family that has no live session never has one again, whatever was already in flight. */
  lemma {:induction false} DeadFamiliesStayDead(s: State, steps: seq<Step>, family: Id)
    requires Inv(s) && Possible(s, steps) && Dead(s, family)
    ensures Dead(Run(s, steps), family)
    decreases |steps|
  {
    if steps != [] {
      StepKeepsInv(s, steps[0]);
      StepKeepsDead(s, steps[0], family);
      DeadFamiliesStayDead(Next(s, steps[0]), steps[1..], family);
    }
  }

  lemma ReuseKillsTheFamily(s: State, step: Step)
    requires Inv(s) && Enabled(s, step) && step.event.FinishRotate? && Answer(s, step).TokenReused?
    ensures Dead(Next(s, step), Answer(s, step).seen.familyId)
  {
    var seen := s.inFlight[step.event.client];
    assert RowAccounted(s, seen.id, seen);
  }

  /** Once a client has been told its token was reused, the family is dead in every later state. */
  lemma ReuseKillsTheFamilyForGood(before: seq<Step>, step: Step, after: seq<Step>)
    requires Possible(INIT, before) && step.event.FinishRotate? && Enabled(Run(INIT, before), step)
    requires Answer(Run(INIT, before), step).TokenReused?
    requires Possible(Next(Run(INIT, before), step), after)
    ensures Dead(Run(Next(Run(INIT, before), step), after), Answer(Run(INIT, before), step).seen.familyId)
  {
    var s := Run(INIT, before);
    RunKeepsInv(INIT, before);
    ReuseKillsTheFamily(s, step);
    StepKeepsInv(s, step);
    DeadFamiliesStayDead(Next(s, step), after, Answer(s, step).seen.familyId);
  }

  /** What one step does to the table: a login adds its row, a logout revokes what it names, a rotation stays in its family. */
  ghost predicate Touches(s: State, step: Step, s': State) {
    var (t, t') := (s.rows, s'.rows);
    match step.event
    case Login(id, userId, raw, ip, userAgent) =>
      id !in t && t' == t[id := Session(id, id, userId, HashToken(raw), ip, userAgent, step.now, None)]
    case BeginRotate(c, raw) =>
      t' == t && (forall id | Owns(t, raw, id) :: s'.inFlight == s.inFlight[c := t[id]]) && ((forall id :: !Owns(t, raw, id)) ==> s' == s)
    case FinishRotate(c, newId, newRaw) => c in s.inFlight && FinishTouches(t, t', s.inFlight[c], newId, newRaw, step.now)
    case Logout(id) => RevokesJust(t, t', (row: Session) => row.id == id, step.now)
    case LogoutAll(u) => RevokesJust(t, t', (row: Session) => row.userId == u, step.now)
    case DeleteUser(u) => (forall id :: id in t' <==> id in t && t[id].userId != u) && forall id | id in t' :: t'[id] == t[id]
  }

  ghost predicate FinishTouches(t: Table, t': Table, seen: Session, newId: Id, newRaw: string, now: Instant) {
    if seen.revokedAt != None then RevokesJust(t, t', (row: Session) => row.familyId == seen.familyId, now)
    else if seen.id in t && t[seen.id].revokedAt == None then
      && newId !in t && newId in t' && Replaces(seen, t'[newId], newRaw) && t'[newId].createdAt == now
      && RevokesJust(t, t' - {newId}, (row: Session) => row.id == seen.id, now)
    else t' == t
  }

  lemma StepTouchesItsOwn(s: State, step: Step)
    requires Inv(s) && Enabled(s, step)
    ensures Touches(s, step, Next(s, step))
  {
    hide FinishTouches, RevokesJust, Inv, EachFamilyIsAChain, ReadsAreRows;
    InvIsWellFormed(s);
    match step.event
    case Login(id, _, raw, _, _) => FreshIsInsertable(s, id, raw);
    case BeginRotate(c, raw) => BeginReadsOwner(s.rows, raw);
    case FinishRotate(c, newId, newRaw) => FinishTouchesItsFamily(s, step);
    case Logout(id) => LogoutTouchesItsOwn(s.rows, id, step.now);
    case LogoutAll(u) => LogoutTouchesItsOwn(s.rows, u, step.now);
    case DeleteUser(u) =>
  }

  lemma InvIsWellFormed(s: State)
    requires Inv(s)
    ensures WellFormed(s.rows) && Accounted(s)
  {
    AccountedIsWellFormed(s);
  }

  lemma LogoutTouchesItsOwn(t: Table, key: Id, now: Instant)
    requires WellFormed(t)
    ensures RevokesJust(t, OrSame(t, RevokeRow(t, key, now)), (row: Session) => row.id == key, now)
    ensures RevokesJust(t, RevokeUserRows(t, key, now), (row: Session) => row.userId == key, now)
  {
  }

  lemma BeginReadsOwner(t: Table, raw: string)
    requires WellFormed(t)
    ensures forall id | Owns(t, raw, id) :: RowByHash(t, HashToken(raw)) == Some(t[id])
    ensures (forall id :: !Owns(t, raw, id)) ==> RowByHash(t, HashToken(raw)) == None
  {
    if HasHash(t, HashToken(raw)) {
      var id :| id in t && t[id].tokenHash == HashToken(raw);
      assert Owns(t, raw, id);
    }
  }

  lemma FinishTouchesItsFamily(s: State, step: Step)
    requires Inv(s) && Enabled(s, step) && step.event.FinishRotate?
    ensures FinishTouches(s.rows, Next(s, step).rows, s.inFlight[step.event.client], step.event.newId, step.event.newRaw, step.now)
  {
    hide FinishTouches, FinishRotation;
    var seen := s.inFlight[step.event.client];
    InvIsWellFormed(s);
    assert RowAccounted(s, seen.id, seen);
    FreshIsInsertable(s, step.event.newId, step.event.newRaw);
    FinishingTouches(s.rows, seen, step.event.newId, step.event.newRaw, step.now);
  }

  lemma FinishingTouches(t: Table, seen: Session, newId: Id, newRaw: string, now: Instant)
    requires WellFormed(t) && newId !in t && !HasHash(t, HashToken(newRaw))
    requires seen.id in t ==> SameButRevoked(seen, t[seen.id])
    ensures FinishTouches(t, FinishRotation(t, seen, newId, newRaw, now).0, seen, newId, newRaw, now)
  {
    if seen.Live() && seen.id in t && t[seen.id].Live() {
      hide RotateRows;
      var next := Successor(seen, newId, newRaw);
      LiveRowRotates(t, seen.id, next, now);
      var stamped := t[seen.id := t[seen.id].Stamped(now)];
      assert stamped[newId := next.Inserted(now)] - {newId} == stamped;
    }
  }

  lemma FreshIsInsertable(s: State, id: Id, raw: string)
    requires Accounted(s) && Unused(s, id, raw)
    ensures id !in s.rows && !HasHash(s.rows, HashToken(raw))
  {
    assert forall i | i in s.rows :: RowAccounted(s, i, s.rows[i]);
  }

  /** A rotation is answered as reuse exactly when the row it read was revoked; its family, and no other, is revoked then, for good. */
  lemma ReuseIsAnsweredIffRevoked(before: seq<Step>, step: Step, after: seq<Step>)
    requires Possible(INIT, before) && step.event.FinishRotate? && Enabled(Run(INIT, before), step)
    requires Possible(Next(Run(INIT, before), step), after)
    ensures var s := Run(INIT, before); var seen := s.inFlight[step.event.client];
      && (Answer(s, step) == TokenReused(seen) <==> seen.revokedAt != None)
      && (Answer(s, step).TokenReused? ==> Answer(s, step).seen == seen)
      && (seen.revokedAt != None ==>
            && RevokesJust(s.rows, Next(s, step).rows, (row: Session) => row.familyId == seen.familyId, step.now)
            && Dead(Run(Next(s, step), after), seen.familyId))
  {
    var s := Run(INIT, before);
    RunKeepsInv(INIT, before);
    FinishTouchesItsFamily(s, step);
    if !s.inFlight[step.event.client].Live() {
      ReuseKillsTheFamilyForGood(before, step, after);
    }
  }

  /** No step of the list ends this client's rotation. */
  predicate LeavesInFlight(steps: seq<Step>, c: Client) {
    forall i | 0 <= i < |steps| :: steps[i].event.FinishRotate? ==> steps[i].event.client != c
  }

  lemma {:induction false} ReadIsHeld(s: State, steps: seq<Step>, c: Client)
    requires Possible(s, steps) && c in s.inFlight && LeavesInFlight(steps, c)
    ensures c in Run(s, steps).inFlight && Run(s, steps).inFlight[c] == s.inFlight[c]
    decreases |steps|
  {
    if steps != [] {
      assert LeavesInFlight(steps[1..], c);
      ReadIsHeld(Next(s, steps[0]), steps[1..], c);
    }
  }

  /**
   Whoever presents an exchanged token again, while its row is there, is answered that it was reused, whatever
   other calls come between the read and the write; and the family is dead in every later state.
   */
  lemma ReplayIsAnsweredAsReuse(before: seq<Step>, begin: Step, between: seq<Step>, finish: Step, after: seq<Step>, id: Id)
    requires Possible(INIT, before) && begin.event.BeginRotate? && Enabled(Run(INIT, before), begin)
    requires var s := Run(INIT, before); Owns(s.rows, begin.event.presented, id) && exists e :: e in s.exchanges && e.token == HashToken(begin.event.presented)
    requires var s := Next(Run(INIT, before), begin);
      && Possible(s, between) && LeavesInFlight(between, begin.event.client)
      && finish.event.FinishRotate? && finish.event.client == begin.event.client && Enabled(Run(s, between), finish)
      && Possible(Next(Run(s, between), finish), after)
    ensures var s := Run(Next(Run(INIT, before), begin), between);
      && Answer(s, finish) == TokenReused(Run(INIT, before).rows[id])
      && Dead(Run(Next(s, finish), after), Run(INIT, before).rows[id].familyId)
  {
    var s0 := Run(INIT, before);
    var s1 := Next(s0, begin);
    var s2 := Run(s1, between);
    RunKeepsInv(INIT, before);
    StepTouchesItsOwn(s0, begin);
    SpentTokenIsReuse(before, begin.event.presented);
    AccountedIsWellFormed(s0);
    BeginReadsOwner(s0.rows, begin.event.presented);
    StepKeepsInv(s0, begin);
    RunKeepsInv(s1, between);
    ReadIsHeld(s1, between, begin.event.client);
    ReuseKillsTheFamily(s2, finish);
    StepKeepsInv(s2, finish);
    DeadFamiliesStayDead(Next(s2, finish), after, s0.rows[id].familyId);
  }

  /** Rows only ever gain a first revocation time; the times they have are kept while the row exists. */
  ghost predicate RevocationsKept(before: Table, after: Table) {
    forall id | id in before && id in after :: SameButRevoked(before[id], after[id])
  }

  /** ... and a row once gone does not come back. */
  ghost predicate GoneForGood(s: State, after: State) {
    forall id | id in s.usedIds && id !in s.rows :: id !in after.rows
  }

  lemma StepKeepsRevocations(s: State, step: Step)
    requires Inv(s) && Enabled(s, step)
    ensures RevocationsKept(s.rows, Next(s, step).rows)
    ensures GoneForGood(s, Next(s, step))
    ensures s.usedIds <= Next(s, step).usedIds
  {
    StepIsOneOfFour(s, step);
    var s' := Next(s, step);
    if Stamping(s, s') {
      StampingKeeps(s, s');
    } else if step.event.DeleteUser? && Deleting(s, s', step.event.deleted) {
      DeletingKeeps(s, s', step.event.deleted);
    } else if step.event.Login? {
      StartingKeeps(s, s', LoginSession(step.event).Inserted(step.now));
    } else {
      var seen := s.inFlight[step.event.client];
      RotatingKeeps(s, s', seen, Successor(seen, step.event.newId, step.event.newRaw).Inserted(step.now), step.now);
    }
  }

  ghost predicate Keeps(s: State, s': State) {
    RevocationsKept(s.rows, s'.rows) && GoneForGood(s, s') && s.usedIds <= s'.usedIds
  }

  lemma StampingKeeps(s: State, s': State)
    requires Stamping(s, s')
    ensures Keeps(s, s')
  {
  }

  lemma DeletingKeeps(s: State, s': State, user: Id)
    requires Deleting(s, s', user)
    ensures Keeps(s, s')
  {
  }

  lemma StartingKeeps(s: State, s': State, root: Session)
    requires Accounted(s) && Starting(s, s', root)
    ensures Keeps(s, s')
  {
    assert forall id | id in s.rows :: RowAccounted(s, id, s.rows[id]);
  }

  lemma RotatingKeeps(s: State, s': State, seen: Session, next: Session, now: Instant)
    requires Accounted(s) && Rotating(s, s', seen, next, now)
    ensures Keeps(s, s')
  {
    assert forall id | id in s.rows :: RowAccounted(s, id, s.rows[id]);
  }

  lemma {:induction false} RevocationTimesAreKept(s: State, steps: seq<Step>)
    requires Inv(s) && Possible(s, steps)
    ensures RevocationsKept(s.rows, Run(s, steps).rows)
    ensures GoneForGood(s, Run(s, steps))
    decreases |steps|
  {
    if steps != [] {
      StepKeepsInv(s, steps[0]);
      StepKeepsRevocations(s, steps[0]);
      RevocationTimesAreKept(Next(s, steps[0]), steps[1..]);
      RevocationsCompose(s, Next(s, steps[0]), Run(s, steps));
    }
  }

  lemma RevocationsCompose(a: State, b: State, c: State)
    requires Accounted(a)
    requires RevocationsKept(a.rows, b.rows) && RevocationsKept(b.rows, c.rows)
    requires GoneForGood(a, b) && GoneForGood(b, c) && a.usedIds <= b.usedIds
    ensures RevocationsKept(a.rows, c.rows) && GoneForGood(a, c)
  {
    forall id | id in a.rows && id in c.rows ensures id in b.rows {
      assert RowAccounted(a, id, a.rows[id]);
    }
  }

  /** Presenting a token again after its exchange is always answered as reuse, however the writes interleave. */
  lemma SpentTokenIsReuse(steps: seq<Step>, presented: string)
    requires Possible(INIT, steps)
    requires exists e :: e in Run(INIT, steps).exchanges && e.token == HashToken(presented)
    ensures var t := Run(INIT, steps).rows;
      match RowByHash(t, HashToken(presented))
      case None => true // the user was deleted
      case Some(row) => !row.Live()
  {
    var s := Run(INIT, steps);
    RunKeepsInv(INIT, steps);
    var e :| e in s.exchanges && e.token == HashToken(presented);
    var r := RowByHash(s.rows, HashToken(presented));
    if r.Some? {
      var id :| id in s.rows && s.rows[id] == r.value;
      assert RowAccounted(s, id, s.rows[id]);
    }
  }

  /** A rotation that lost the race to write changes nothing and is told NotFound, not reuse. */
  lemma LostRaceChangesNothing(steps: seq<Step>, step: Step)
    requires Possible(INIT, steps) && step.event.FinishRotate? && Enabled(Run(INIT, steps), step)
    ensures var s := Run(INIT, steps);
      var seen := s.inFlight[step.event.client];
      var lost := seen.Live() && (seen.id in s.rows ==> !s.rows[seen.id].Live());
      && (Answer(s, step) == StoreFailed(NotFound) <==> lost)
      && (lost ==> Next(s, step).rows == s.rows && Next(s, step).exchanges == s.exchanges)
      && (Answer(s, step).Rotated? <==> seen.id in s.rows && s.rows[seen.id].Live())
  {
    var s := Run(INIT, steps);
    RunKeepsInv(INIT, steps);
    var seen := s.inFlight[step.event.client];
    assert RowAccounted(s, seen.id, seen);
    if seen.Live() && seen.id in s.rows && s.rows[seen.id].Live() {
      var next := Successor(seen, step.event.newId, step.event.newRaw);
      var t := s.rows[seen.id := s.rows[seen.id].Stamped(step.now)];
      forall id | id in t ensures id != next.id && t[id].tokenHash != next.tokenHash {
        assert RowAccounted(s, id, s.rows[id]);
      }
      assert Insertable(t, next);
    }
  }

  // ----- The store without the guard -----

  /** Two rotations that both read the live root leave two live sessions in the unguarded store. */
  lemma UnguardedRaceLeavesTwoLive(t: Table, root: Id, first: Session, second: Session, now: Instant)
    requires WellFormed(t) && root in t && t[root].Live()
    requires first == Successor(t[root], first.id, first.tokenHash.raw) && second == Successor(t[root], second.id, second.tokenHash.raw)
    requires first.id !in t && second.id !in t && first.id != second.id
    ensures var one := RotateUnguarded(t, root, first, now);
      && one.Ok?
      && var two := RotateUnguarded(one.value, root, second, now);
      && two.Ok?
      && !AtMostOneLive(two.value)
  {
    var one := RotateUnguarded(t, root, first, now).value;
    var two := RotateUnguarded(one, root, second, now).value;
    assert first.id in two && second.id in two;
    assert two[first.id].Live() && two[second.id].Live() && two[first.id].familyId == two[second.id].familyId;
  }
}
