/** The end-user query widget: whatever intent a model produced, it is rewritten to name its owner. */
module Widget {
  import opened Wrappers
  import opened Like
  import opened Query
  import opened Sql
  import opened SafeQuery

  function OwnerColumn(entity: string): string {
    if entity == "users" then "id" else "user_id"
  }

  function OwnerFilter(entity: string, owner: string): QueryFilter {
    QueryFilter(OwnerColumn(entity), "=", owner)
  }

  function WithoutUserId(filters: seq<QueryFilter>): seq<QueryFilter> {
    if filters == [] then []
    else (if filters[0].field == "user_id" then [] else [filters[0]]) + WithoutUserId(filters[1..])
  }

  /** The filters that survive scoping: none for users, all but user_id elsewhere. */
  function Kept(entity: string, filters: seq<QueryFilter>): seq<QueryFilter> {
    if entity == "users" then [] else WithoutUserId(filters)
  }

  function Scoped(intent: QueryIntent, owner: string): Result<QueryIntent, QueryError> {
    if intent.entity in ENTITIES then
      Ok(intent.(filters := Kept(intent.entity, intent.filters) + [OwnerFilter(intent.entity, owner)]))
    else Err(EntityNotAvailable)
  }

  /** scopeToOwner. The caller's slice is an array here, and is not modified. */
  method ScopeToOwner(intent: QueryIntent, slice: array<QueryFilter>, owner: string) returns (r: Result<QueryIntent, QueryError>)
    requires slice[..] == intent.filters
    ensures r == Scoped(intent, owner)
  {
    if intent.entity == "users" {
      assert Kept("users", intent.filters) + [OwnerFilter("users", owner)] == [QueryFilter("id", "=", owner)];
      return Ok(intent.(filters := [QueryFilter("id", "=", owner)]));
    } else if intent.entity == "sessions" || intent.entity == "audit_events" {
      var kept: seq<QueryFilter> := [];
      for k := 0 to slice.Length
        invariant kept == WithoutUserId(slice[..k])
      {
        WithoutUserIdOfSum(slice[..k], [slice[k]]);
        assert slice[..k + 1] == slice[..k] + [slice[k]];
        if slice[k].field != "user_id" {
          kept := kept + [slice[k]];
        }
      }
      assert slice[..slice.Length] == slice[..];
      return Ok(intent.(filters := kept + [QueryFilter("user_id", "=", owner)]));
    } else {
      return Err(EntityNotAvailable);
    }
  }

  function WithDefaultLimit(intent: QueryIntent): QueryIntent {
    if intent.limit == 0 then intent.(limit := DEFAULT_LIMIT) else intent
  }

  function Executed(d: Dialect, cmp: Comparison, db: Database, intent: QueryIntent): Result<Answer, QueryError>
    requires ENTITIES <= db.Keys
  {
    var i := WithDefaultLimit(intent);
    if ValidIntent(i) then Ok(Meaning(d, cmp, db, i)) else Err(UnsafeIntent)
  }

  method ExecuteIntent(d: Dialect, cmp: Comparison, db: Database, intent: QueryIntent) returns (r: Result<Answer, QueryError>)
    requires ENTITIES <= db.Keys
    ensures r == Executed(d, cmp, db, intent)
  {
    var i := WithDefaultLimit(intent);
    var valid := ValidateIntent(i);
    if valid.Err? {
      return Err(valid.error);
    }
    var ran := RunSafeQuery(d, cmp, db, i);
    if ran.Err? {
      assert false; // a valid intent is never refused by the store
    }
    return Ok(ran.value);
  }

  function Asked(d: Dialect, cmp: Comparison, db: Database, owner: string, intent: QueryIntent): Result<Answer, QueryError>
    requires ENTITIES <= db.Keys
  {
    if owner == "" then Err(MissingOwner)
    else
      match Scoped(intent, owner)
      case Err(e) => Err(e)
      case Ok(scoped) => Executed(d, cmp, db, scoped)
  }

  /** Ask, from the point where the model's intent is in hand. */
  method Ask(d: Dialect, cmp: Comparison, db: Database, owner: string, intent: QueryIntent, slice: array<QueryFilter>)
    returns (r: Result<Answer, QueryError>)
    requires ENTITIES <= db.Keys && slice[..] == intent.filters
    ensures r == Asked(d, cmp, db, owner, intent)
  {
    if owner == "" {
      return Err(MissingOwner);
    }
    var scoped := ScopeToOwner(intent, slice, owner);
    if scoped.Err? {
      return Err(scoped.error);
    }
    r := ExecuteIntent(d, cmp, db, scoped.value);
  }

  // ----- Properties of the rewrite -----

  lemma {:induction false} WithoutUserIdOfSum(a: seq<QueryFilter>, b: seq<QueryFilter>)
    ensures WithoutUserId(a + b) == WithoutUserId(a) + WithoutUserId(b)
  {
    if a == [] {
      assert a + b == b;
    } else {
      assert (a + b)[1..] == a[1..] + b;
      WithoutUserIdOfSum(a[1..], b);
    }
  }

  lemma {:induction false} WithoutUserIdTwice(filters: seq<QueryFilter>)
    ensures WithoutUserId(WithoutUserId(filters)) == WithoutUserId(filters)
    ensures forall f | f in WithoutUserId(filters) :: f in filters && f.field != "user_id"
  {
    if filters != [] {
      WithoutUserIdTwice(filters[1..]);
      var rest := WithoutUserId(filters[1..]);
      if filters[0].field != "user_id" {
        assert ([filters[0]] + rest)[1..] == rest;
      } else {
        assert [] + rest == rest;
      }
    }
  }

  /** Scoping a scoped intent to the same owner changes nothing. */
  lemma ScopingIsIdempotent(intent: QueryIntent, owner: string)
    requires Scoped(intent, owner).Ok?
    ensures Scoped(Scoped(intent, owner).value, owner) == Scoped(intent, owner)
  {
    if intent.entity != "users" {
      var kept := WithoutUserId(intent.filters);
      WithoutUserIdTwice(intent.filters);
      WithoutUserIdOfSum(kept, [OwnerFilter(intent.entity, owner)]);
      assert WithoutUserId([OwnerFilter(intent.entity, owner)]) == [];
      assert kept + [] == kept;
    }
  }

  /** Any user_id filter inserted anywhere in the list is ignored. */
  lemma ScopingIgnoresUserId(intent: QueryIntent, owner: string, front: seq<QueryFilter>, claim: QueryFilter, back: seq<QueryFilter>)
    requires intent.filters == front + back && claim.field == "user_id"
    ensures Scoped(intent.(filters := front + [claim] + back), owner) == Scoped(intent, owner)
  {
    WithoutUserIdOfSum(front, back);
    WithoutUserIdOfSum(front + [claim], back);
    WithoutUserIdOfSum(front, [claim]);
    assert WithoutUserId([claim]) == [];
    assert WithoutUserId(front) + [] == WithoutUserId(front);
  }

  /** Scoping a valid intent gives a valid one. */
  lemma ScopingKeepsValidity(intent: QueryIntent, owner: string)
    requires ValidIntent(intent)
    ensures Scoped(intent, owner).Ok? && ValidIntent(Scoped(intent, owner).value)
  {
    var scoped := Scoped(intent, owner).value;
    WithoutUserIdTwice(intent.filters);
    forall j | 0 <= j < |scoped.filters| ensures AllowedFilter(intent.entity, scoped.filters[j]) {
      var f := scoped.filters[j];
      if j < |scoped.filters| - 1 {
        assert f in Kept(intent.entity, intent.filters);
        assert f in intent.filters;
      } else {
        assert f == OwnerFilter(intent.entity, owner);
      }
    }
  }

  // ----- Non-interference -----

  /** A user owns the row of users that is theirs, and every row of another table that carries their user_id. */
  predicate OwnedBy(entity: string, owner: string, row: Row) {
    if entity == "users" then "id" in row && row["id"] == Str(owner) else "user_id" in row && row["user_id"] == Str(owner)
  }

  function OwnRows(db: Database, entity: string, owner: string): seq<Row>
    requires entity in db
  {
    Filter(db[entity], row => OwnedBy(entity, owner, row))
  }

  /** On text columns = is equality. */
  ghost predicate TextEquality(cmp: Comparison) {
    forall s, v :: cmp(Str(s), "=", v) <==> s == v
  }

  /** Identity columns hold text or NULL. */
  ghost predicate TextIds(db: Database) {
    forall entity: string, row: Row | entity in ENTITIES && entity in db && row in db[entity] ::
      && ("id" in row ==> !row["id"].Num?)
      && ("user_id" in row ==> !row["user_id"].Num?)
  }

  lemma {:induction false} FilterTwice(rows: seq<Row>, outer: Row -> bool, inner: Row -> bool, both: Row -> bool)
    requires forall row: Row | row in rows :: both(row) <==> outer(row) && inner(row)
    ensures Filter(rows, both) == Filter(Filter(rows, outer), inner)
  {
    if rows != [] {
      FilterTwice(rows[1..], outer, inner, both);
      assert both(rows[0]) <==> outer(rows[0]) && inner(rows[0]);
      if outer(rows[0]) {
        assert ([rows[0]] + Filter(rows[1..], outer))[1..] == Filter(rows[1..], outer);
      }
    }
  }

  /** A scoped query selects, of the owner's own rows, those that meet the other filters. */
  lemma ScopedQuerySelectsOwnRows(d: Dialect, cmp: Comparison, db: Database, intent: QueryIntent, owner: string)
    requires ENTITIES <= db.Keys && TextEquality(cmp) && TextIds(db) && Scoped(intent, owner).Ok?
    ensures Selected(d, cmp, db, Scoped(intent, owner).value)
      == Filter(OwnRows(db, intent.entity, owner), row => AllHold(d, cmp, row, Kept(intent.entity, intent.filters)))
  {
    var e := intent.entity;
    var kept := Kept(e, intent.filters);
    var scoped := Scoped(intent, owner).value;
    forall row: Row | row in db[e]
      ensures AllHold(d, cmp, row, scoped.filters) <==> OwnedBy(e, owner, row) && AllHold(d, cmp, row, kept)
    {
      OwnerFilterHolds(d, cmp, db, e, row, owner);
      AllHoldOfSum(d, cmp, row, kept, OwnerFilter(e, owner));
    }
    FilterTwice(db[e], row => OwnedBy(e, owner, row), row => AllHold(d, cmp, row, kept), row => AllHold(d, cmp, row, scoped.filters));
  }

  lemma OwnerFilterHolds(d: Dialect, cmp: Comparison, db: Database, entity: string, row: Row, owner: string)
    requires entity in ENTITIES && entity in db && row in db[entity] && TextEquality(cmp) && TextIds(db)
    ensures Holds(d, cmp, row, OwnerFilter(entity, owner)) <==> OwnedBy(entity, owner, row)
  {
    var c := OwnerColumn(entity);
    if c in row {
      assert !row[c].Num?;
      if row[c].Str? {
        assert cmp(Str(row[c].text), "=", owner) <==> row[c].text == owner;
      }
    }
  }

  lemma AllHoldOfSum(d: Dialect, cmp: Comparison, row: Row, filters: seq<QueryFilter>, last: QueryFilter)
    ensures AllHold(d, cmp, row, filters + [last]) <==> AllHold(d, cmp, row, filters) && Holds(d, cmp, row, last)
  {
    var all := filters + [last];
    assert all[|filters|] == last;
    assert forall i | 0 <= i < |filters| :: all[i] == filters[i];
  }

  /** Two databases that agree on the owner's rows give the owner the same answer to every intent. */
  lemma OthersRowsCannotBeSeen(d: Dialect, cmp: Comparison, db1: Database, db2: Database, owner: string, intent: QueryIntent)
    requires ENTITIES <= db1.Keys && ENTITIES <= db2.Keys && TextEquality(cmp) && TextIds(db1) && TextIds(db2)
    requires forall entity | entity in ENTITIES :: OwnRows(db1, entity, owner) == OwnRows(db2, entity, owner)
    ensures Asked(d, cmp, db1, owner, intent) == Asked(d, cmp, db2, owner, intent)
  {
    if owner != "" && intent.entity in ENTITIES {
      var i := WithDefaultLimit(intent);
      ScopedQuerySelectsOwnRows(d, cmp, db1, i, owner);
      ScopedQuerySelectsOwnRows(d, cmp, db2, i, owner);
      assert WithDefaultLimit(Scoped(intent, owner).value) == Scoped(i, owner).value;
    }
  }
}
