/** What the widget answers, told without its pipeline: which rows, which cells, which refusals, and what no answer shows. */
module Asking {
  import opened Wrappers
  import opened Text
  import opened Like
  import opened Query
  import opened Sql
  import opened SafeQuery
  import opened Widget

  // ----- Which rows -----

  /** `at` lists the positions of the rows that are kept, in table order. */
  ghost predicate IsSelection(rows: seq<Row>, keep: Row -> bool, at: seq<nat>) {
    && (forall k | 0 <= k < |at| :: at[k] < |rows| && keep(rows[at[k]]))
    && (forall k, m | 0 <= k < m < |at| :: at[k] < at[m])
    && (forall i: nat | i < |rows| && keep(rows[i]) :: i in at)
  }

  function RowsAt(rows: seq<Row>, at: seq<nat>): seq<Row>
    requires forall k | 0 <= k < |at| :: at[k] < |rows|
  {
    seq(|at|, k requires 0 <= k < |at| => rows[at[k]])
  }

  lemma {:induction false} FilterOfMore(rows: seq<Row>, last: Row, keep: Row -> bool)
    ensures Filter(rows + [last], keep) == Filter(rows, keep) + if keep(last) then [last] else []
  {
    if rows == [] {
      assert [] + [last] == [last] && [last][1..] == [];
    } else {
      assert (rows + [last])[1..] == rows[1..] + [last];
      FilterOfMore(rows[1..], last, keep);
    }
  }

  lemma {:induction false} FilterSelects(rows: seq<Row>, keep: Row -> bool) returns (at: seq<nat>)
    ensures IsSelection(rows, keep, at) && Filter(rows, keep) == RowsAt(rows, at)
  {
    at := [];
    if rows != [] {
      var front, last := rows[..|rows| - 1], rows[|rows| - 1];
      at := FilterSelects(front, keep);
      assert rows == front + [last];
      FilterOfMore(front, last, keep);
      assert RowsAt(rows, at) == RowsAt(front, at);
      if keep(last) {
        SelectsMore(front, last, keep, at);
        at := at + [|front|];
      } else {
        assert forall i: nat | i < |front| :: rows[i] == front[i];
      }
    }
  }

  lemma SelectsMore(front: seq<Row>, last: Row, keep: Row -> bool, at: seq<nat>)
    requires IsSelection(front, keep, at) && keep(last)
    ensures IsSelection(front + [last], keep, at + [|front|])
    ensures RowsAt(front + [last], at + [|front|]) == RowsAt(front, at) + [last]
  {
    var more := at + [|front|];
    assert more[|at|] == |front|;
    forall i: nat | i < |front| && keep(front[i]) ensures i in more {
      assert i in at;
    }
  }

  /** The row is the owner's, and meets every filter that is not about identity; on users no filter counts. */
  predicate Answers(d: Dialect, cmp: Comparison, owner: string, intent: QueryIntent, row: Row) {
    && OwnedBy(intent.entity, owner, row)
    && (intent.entity == "users" || forall f | f in intent.filters && f.field != "user_id" :: Holds(d, cmp, row, f))
  }

  lemma {:induction false} WithoutUserIdHas(filters: seq<QueryFilter>, f: QueryFilter)
    ensures f in WithoutUserId(filters) <==> f in filters && f.field != "user_id"
  {
    if filters != [] {
      WithoutUserIdHas(filters[1..], f);
      assert filters == [filters[0]] + filters[1..];
    }
  }

  lemma KeptHold(d: Dialect, cmp: Comparison, intent: QueryIntent, row: Row)
    ensures AllHold(d, cmp, row, Kept(intent.entity, intent.filters))
      <==> intent.entity == "users" || forall f | f in intent.filters && f.field != "user_id" :: Holds(d, cmp, row, f)
  {
    var kept := Kept(intent.entity, intent.filters);
    if intent.entity != "users" {
      forall f ensures f in kept <==> f in intent.filters && f.field != "user_id" {
        WithoutUserIdHas(intent.filters, f);
      }
      assert AllHold(d, cmp, row, kept) <==> forall f | f in kept :: Holds(d, cmp, row, f);
    }
  }

  lemma ScopedSelects(d: Dialect, cmp: Comparison, db: Database, intent: QueryIntent, owner: string) returns (at: seq<nat>)
    requires ENTITIES <= db.Keys && TextEquality(cmp) && TextIds(db) && Scoped(intent, owner).Ok?
    ensures IsSelection(db[intent.entity], row => Answers(d, cmp, owner, intent, row), at)
    ensures Selected(d, cmp, db, Scoped(intent, owner).value) == RowsAt(db[intent.entity], at)
  {
    var e := intent.entity;
    var answers := (row: Row) => Answers(d, cmp, owner, intent, row);
    ScopedQuerySelectsOwnRows(d, cmp, db, intent, owner);
    forall row: Row ensures answers(row) <==> OwnedBy(e, owner, row) && AllHold(d, cmp, row, Kept(e, intent.filters)) {
      KeptHold(d, cmp, intent, row);
    }
    FilterTwice(db[e], row => OwnedBy(e, owner, row), row => AllHold(d, cmp, row, Kept(e, intent.filters)), answers);
    at := FilterSelects(db[e], answers);
  }

  // ----- Which cells -----

  /** The text of a cell: nothing for NULL. */
  predicate Reads(row: Row, column: string, text: string) {
    if column !in row || row[column].Null? then text == ""
    else if row[column].Str? then text == row[column].text
    else AllDigits(text) && NumberOf(text) == row[column].number
  }

  /** Row by row and column by column, the first rows selected, and no more than the limit. */
  ghost predicate ShowsFirst(shown: seq<seq<string>>, columns: seq<string>, rows: seq<Row>, limit: int) {
    && |shown| == Min(|rows|, limit)
    && forall i | 0 <= i < |shown| :: |shown[i]| == |columns| && forall j | 0 <= j < |columns| :: Reads(rows[i], columns[j], shown[i][j])
  }

  /** The key of every row, in turn. */
  function Keys(rows: seq<Row>, key: string): seq<Cell> {
    seq(|rows|, i requires 0 <= i < |rows| => if key in rows[i] then rows[i][key] else Null)
  }

  ghost predicate CountsGroups(sizes: map<Cell, nat>, key: string, rows: seq<Row>) {
    forall cell :: (cell in sizes <==> cell in Keys(rows, key)) && (cell in sizes ==> sizes[cell] == multiset(Keys(rows, key))[cell])
  }

  lemma ProjectShowsFirst(columns: seq<string>, rows: seq<Row>, limit: nat)
    ensures ShowsFirst(Project(Take(rows, limit), columns), columns, rows, limit)
  {
    forall i, j | 0 <= i < |Take(rows, limit)| && 0 <= j < |columns| ensures Reads(rows[i], columns[j], Shown(rows[i], columns[j])) {
      if columns[j] in rows[i] && rows[i][columns[j]].Num? {
        ItoaIsDecimal(rows[i][columns[j]].number);
      }
    }
  }

  lemma {:induction false} SizesCountGroups(rows: seq<Row>, key: string)
    ensures CountsGroups(GroupSizes(rows, key), key, rows)
  {
    if rows != [] {
      SizesCountGroups(rows[1..], key);
      assert Keys(rows, key) == [KeyOf(rows[0], key)] + Keys(rows[1..], key);
    }
  }

  /** What an answer shows of the rows selected: their number, the sizes of their groups, or the first of them. */
  ghost predicate AnswerShows(answer: Answer, intent: QueryIntent, rows: seq<Row>, limit: int) {
    if intent.aggregate == "count" then answer == Rows(["count"], [[Itoa(|rows|)]])
    else if intent.aggregate == "group_by" then
      answer.Groups? && answer.columns == [intent.groupBy, "count"] && CountsGroups(answer.sizes, intent.groupBy, rows)
    else answer.Rows? && answer.columns == EntityColumns(intent.entity) && ShowsFirst(answer.rows, answer.columns, rows, limit)
  }

  lemma MeaningShows(d: Dialect, cmp: Comparison, db: Database, intent: QueryIntent)
    requires intent.entity in db
    ensures AnswerShows(Meaning(d, cmp, db, intent), intent, Selected(d, cmp, db, intent), if intent.limit <= 0 then 50 else intent.limit)
  {
    hide GroupSizes, Project, Selected, CountsGroups, ShowsFirst;
    var rows := Selected(d, cmp, db, intent);
    SizesCountGroups(rows, intent.groupBy);
    ProjectShowsFirst(EntityColumns(intent.entity), rows, if intent.limit <= 0 then 50 else intent.limit);
  }

  /** The store answers from the rows that meet every filter, and refuses any name it does not know. */
  lemma StoreAnswers(d: Dialect, cmp: Comparison, db: Database, intent: QueryIntent) returns (at: seq<nat>)
    requires ENTITIES <= db.Keys
    ensures RunResult(d, cmp, db, intent) == Err(NotAllowed) <==>
      || intent.entity !in {"users", "sessions", "audit_events"}
      || (exists f :: f in intent.filters && !(f.field in EntityColumns(intent.entity) && f.operator in {"=", ">", "<", "contains"}))
      || (intent.aggregate == "group_by" && intent.groupBy !in EntityColumns(intent.entity))
    ensures RunResult(d, cmp, db, intent).Ok? ==>
      && IsSelection(db[intent.entity], row => forall f | f in intent.filters :: Holds(d, cmp, row, f), at)
      && AnswerShows(RunResult(d, cmp, db, intent).value, intent, RowsAt(db[intent.entity], at), if intent.limit <= 0 then 50 else intent.limit)
  {
    hide Meaning, AnswerShows, Filter;
    at := [];
    if RunResult(d, cmp, db, intent).Ok? {
      var meets := (row: Row) => forall f | f in intent.filters :: Holds(d, cmp, row, f);
      MeaningShows(d, cmp, db, intent);
      FilterSame(db[intent.entity], row => AllHold(d, cmp, row, intent.filters), meets);
      at := FilterSelects(db[intent.entity], meets);
    }
    assert AllFiltersAllowed(intent.entity, intent.filters) <==> forall f | f in intent.filters :: AllowedFilter(intent.entity, f);
  }

  /**
   An answer is about the owner's rows that meet the filters: their number, the sizes of their groups, or the
   entity's columns of the first of them, fifty unless the intent says otherwise and never more than five hundred.
   */
  lemma AskAnswers(d: Dialect, cmp: Comparison, db: Database, owner: string, intent: QueryIntent) returns (at: seq<nat>)
    requires ENTITIES <= db.Keys && TextEquality(cmp) && TextIds(db) && Asked(d, cmp, db, owner, intent).Ok?
    ensures intent.entity in db && IsSelection(db[intent.entity], row => Answers(d, cmp, owner, intent, row), at)
    ensures var limit := if intent.limit == 0 then 50 else intent.limit;
      0 < limit <= 500 && AnswerShows(Asked(d, cmp, db, owner, intent).value, intent, RowsAt(db[intent.entity], at), limit)
  {
    hide Meaning, Selected, CountsGroups, ShowsFirst;
    at := ScopedSelects(d, cmp, db, intent, owner);
    var scoped := Scoped(intent, owner).value;
    SelectedIgnoresLimit(d, cmp, db, scoped);
    MeaningShows(d, cmp, db, WithDefaultLimit(scoped));
  }

  lemma SelectedIgnoresLimit(d: Dialect, cmp: Comparison, db: Database, intent: QueryIntent)
    requires intent.entity in db
    ensures Selected(d, cmp, db, WithDefaultLimit(intent)) == Selected(d, cmp, db, intent)
  {
  }

  // ----- Which refusals -----

  /** The filter names a column or an operator that is not allowed, and is not dropped before anyone looks. */
  predicate BadFilter(entity: string, f: QueryFilter) {
    f.field != "user_id" && !(f.field in EntityColumns(entity) && f.operator in {"=", ">", "<", "contains"})
  }

  predicate BadIntent(intent: QueryIntent) {
    || intent.aggregate !in {"", "count", "group_by"}
    || (intent.aggregate == "group_by" && intent.groupBy !in EntityColumns(intent.entity))
    || intent.limit < 0 || intent.limit > 500
    || (intent.entity != "users" && exists f :: f in intent.filters && BadFilter(intent.entity, f))
  }

  /** Nobody asking is refused first, then an entity there is not, then an intent that is not allowed; a bad filter on users is dropped, not refused. */
  lemma AskRefuses(d: Dialect, cmp: Comparison, db: Database, owner: string, intent: QueryIntent)
    requires ENTITIES <= db.Keys
    ensures Asked(d, cmp, db, owner, intent) == Err(MissingOwner) <==> owner == ""
    ensures Asked(d, cmp, db, owner, intent) == Err(EntityNotAvailable) <==>
      owner != "" && intent.entity !in {"users", "sessions", "audit_events"}
    ensures Asked(d, cmp, db, owner, intent) == Err(UnsafeIntent) <==>
      owner != "" && intent.entity in {"users", "sessions", "audit_events"} && BadIntent(intent)
  {
    hide Meaning;
    if intent.entity in ENTITIES {
      ScopedFiltersAllowed(intent, owner);
    }
  }

  lemma ScopedFiltersAllowed(intent: QueryIntent, owner: string)
    requires intent.entity in ENTITIES
    ensures AllFiltersAllowed(intent.entity, Scoped(intent, owner).value.filters)
      <==> intent.entity == "users" || forall f | f in intent.filters :: !BadFilter(intent.entity, f)
  {
    var e, last := intent.entity, OwnerFilter(intent.entity, owner);
    var kept := Kept(e, intent.filters);
    assert AllowedFilter(e, last);
    assert (kept + [last])[|kept|] == last;
    assert AllFiltersAllowed(e, kept + [last]) <==> forall f | f in kept :: AllowedFilter(e, f) by {
      assert forall j | 0 <= j < |kept| :: (kept + [last])[j] == kept[j];
    }
    if e != "users" {
      forall f ensures f in kept <==> f in intent.filters && f.field != "user_id" {
        WithoutUserIdHas(intent.filters, f);
      }
    }
  }

  // ----- What no answer shows -----

  /** The stored secrets are in no allowlist. */
  lemma SecretsAreNotAllowed(entity: string)
    ensures "password_hash" !in EntityColumns(entity) && "token_hash" !in EntityColumns(entity)
  {
  }

  /** The rows differ at most in columns that are not on the entity's allowlist. */
  ghost predicate AlikeRows(entity: string, a: Row, b: Row) {
    forall c | c in EntityColumns(entity) :: (c in a <==> c in b) && (c in a ==> a[c] == b[c])
  }

  ghost predicate AlikeTables(entity: string, a: seq<Row>, b: seq<Row>) {
    |a| == |b| && forall i | 0 <= i < |a| :: AlikeRows(entity, a[i], b[i])
  }

  lemma AlikeRowsHold(d: Dialect, cmp: Comparison, entity: string, filters: seq<QueryFilter>, a: Row, b: Row)
    requires AlikeRows(entity, a, b) && AllFiltersAllowed(entity, filters)
    ensures AllHold(d, cmp, a, filters) <==> AllHold(d, cmp, b, filters)
  {
    forall i | 0 <= i < |filters| ensures Holds(d, cmp, a, filters[i]) <==> Holds(d, cmp, b, filters[i]) {
      assert AllowedFilter(entity, filters[i]);
    }
  }

  lemma {:induction false} FilterAlike(entity: string, a: seq<Row>, b: seq<Row>, keep: Row -> bool)
    requires AlikeTables(entity, a, b) && forall i | 0 <= i < |a| :: keep(a[i]) == keep(b[i])
    ensures AlikeTables(entity, Filter(a, keep), Filter(b, keep))
  {
    if a != [] {
      assert forall i | 0 <= i < |a[1..]| :: a[1..][i] == a[i + 1] && b[1..][i] == b[i + 1];
      FilterAlike(entity, a[1..], b[1..], keep);
    }
  }

  lemma {:induction false} GroupsAlike(entity: string, a: seq<Row>, b: seq<Row>, key: string)
    requires AlikeTables(entity, a, b) && key in EntityColumns(entity)
    ensures GroupSizes(a, key) == GroupSizes(b, key)
  {
    if a != [] {
      assert forall i | 0 <= i < |a[1..]| :: a[1..][i] == a[i + 1] && b[1..][i] == b[i + 1];
      GroupsAlike(entity, a[1..], b[1..], key);
      assert AlikeRows(entity, a[0], b[0]);
    }
  }

  lemma ProjectAlike(entity: string, a: seq<Row>, b: seq<Row>, limit: nat)
    requires AlikeTables(entity, a, b)
    ensures Project(Take(a, limit), EntityColumns(entity)) == Project(Take(b, limit), EntityColumns(entity))
  {
    hide EntityColumns;
    var cols, x, y := EntityColumns(entity), Take(a, limit), Take(b, limit);
    forall i | 0 <= i < |x|
      ensures seq(|cols|, j requires 0 <= j < |cols| => Shown(x[i], cols[j])) == seq(|cols|, j requires 0 <= j < |cols| => Shown(y[i], cols[j]))
    {
      assert AlikeRows(entity, a[i], b[i]);
      forall j | 0 <= j < |cols| ensures Shown(x[i], cols[j]) == Shown(y[i], cols[j]) {
        assert cols[j] in cols;
      }
    }
  }

  /** Databases that differ only in columns off the allowlists, the hashes among them, answer every intent alike. */
  lemma UnlistedColumnsCannotBeSeen(d: Dialect, cmp: Comparison, db1: Database, db2: Database, intent: QueryIntent)
    requires ENTITIES <= db1.Keys && ENTITIES <= db2.Keys
    requires forall entity | entity in ENTITIES :: AlikeTables(entity, db1[entity], db2[entity])
    ensures RunResult(d, cmp, db1, intent) == RunResult(d, cmp, db2, intent)
  {
    var e := intent.entity;
    if e in ENTITIES && AllFiltersAllowed(e, intent.filters) {
      var (a, b) := (db1[e], db2[e]);
      assert AlikeTables(e, a, b);
      forall i | 0 <= i < |a| ensures AllHold(d, cmp, a[i], intent.filters) == AllHold(d, cmp, b[i], intent.filters) {
        AlikeRowsHold(d, cmp, e, intent.filters, a[i], b[i]);
      }
      FilterAlike(e, a, b, row => AllHold(d, cmp, row, intent.filters));
      var (x, y) := (Selected(d, cmp, db1, intent), Selected(d, cmp, db2, intent));
      if intent.aggregate == "group_by" && intent.groupBy in EntityColumns(e) {
        GroupsAlike(e, x, y, intent.groupBy);
      }
      ProjectAlike(e, x, y, if intent.limit <= 0 then DEFAULT_LIMIT else intent.limit);
    }
  }
}
