/**
 The safe query stores: an allowlisted intent becomes one parameterised statement.

 SQLite numbers nothing and writes ? for every value; Postgres writes $1, $2, ... and gives LIMIT
 the number after the last filter's.
 */
module SafeQuery {
  import opened Wrappers
  import opened Text
  import opened Like
  import opened Query
  import opened Sql

  datatype StoreError = NotAllowed

  function OperatorSql(d: Dialect, operator: string): Option<string> {
    if operator == "=" || operator == ">" || operator == "<" then Some(operator)
    else if operator == "contains" then Some(if d.Sqlite? then "LIKE" else "ILIKE")
    else None
  }

  function ValueForOperator(operator: string, value: string): string {
    if operator == "contains" then ContainsPattern(value) else value
  }

  /** The n-th placeholder of a statement, counting from 1. */
  function Placeholder(d: Dialect, n: nat): string {
    if d.Sqlite? then "?" else "$" + Itoa(n)
  }

  function ClauseText(c: Condition): string {
    c.field + " " + c.operator + " " + c.placeholder
  }

  // ----- The compiler -----

  /** Filters whose text is safe to split at spaces. */
  predicate Compilable(intent: QueryIntent) {
    && Word(intent.entity)
    && OperatorsKnown(intent.filters)
    && forall i | 0 <= i < |intent.filters| :: Word(intent.filters[i].field)
  }

  lemma AllowedIsCompilable(intent: QueryIntent)
    requires intent.entity in ENTITIES && AllFiltersAllowed(intent.entity, intent.filters)
    ensures Compilable(intent)
  {
    AllowedNamesAreWords(intent.entity);
    forall i | 0 <= i < |intent.filters| ensures Word(intent.filters[i].field) && intent.filters[i].operator in OPERATORS {
      assert AllowedFilter(intent.entity, intent.filters[i]);
    }
  }

  predicate OperatorsKnown(filters: seq<QueryFilter>) {
    forall i | 0 <= i < |filters| :: filters[i].operator in OPERATORS
  }

  /** What the filters compile to: one condition each, its placeholder numbered by its place. */
  function Conditions(d: Dialect, filters: seq<QueryFilter>): seq<Condition>
    requires OperatorsKnown(filters)
  {
    seq(|filters|, i requires 0 <= i < |filters| =>
      Condition(filters[i].field, OperatorSql(d, filters[i].operator).value, Placeholder(d, i + 1)))
  }

  function Args(filters: seq<QueryFilter>): seq<Arg> {
    seq(|filters|, i requires 0 <= i < |filters| => Bound(ValueForOperator(filters[i].operator, filters[i].value)))
  }

  function ClauseTexts(where: seq<Condition>): seq<string> {
    seq(|where|, i requires 0 <= i < |where| => ClauseText(where[i]))
  }

  function WhereText(where: seq<Condition>): string {
    if where == [] then "" else " WHERE " + Join(ClauseTexts(where), " AND ")
  }

  lemma CompileOneMore(d: Dialect, filters: seq<QueryFilter>, f: QueryFilter)
    requires OperatorsKnown(filters) && f.operator in OPERATORS
    ensures OperatorsKnown(filters + [f])
    ensures ClauseTexts(Conditions(d, filters + [f]))
         == ClauseTexts(Conditions(d, filters)) + [f.field + " " + OperatorSql(d, f.operator).value + " " + Placeholder(d, |filters| + 1)]
    ensures Args(filters + [f]) == Args(filters) + [Bound(ValueForOperator(f.operator, f.value))]
  {
    assert Conditions(d, filters + [f])
        == Conditions(d, filters) + [Condition(f.field, OperatorSql(d, f.operator).value, Placeholder(d, |filters| + 1))];
  }

  method BuildWhereClause(d: Dialect, intent: QueryIntent) returns (r: Result<(string, seq<Arg>), StoreError>)
    ensures r.Ok? <==> AllFiltersAllowed(intent.entity, intent.filters)
    ensures r.Ok? ==> r.value == (WhereText(Conditions(d, intent.filters)), Args(intent.filters))
    ensures r.Err? ==> r.error == NotAllowed
  {
    var filters := intent.filters;
    if |filters| == 0 {
      assert Conditions(d, filters) == [] && Args(filters) == [];
      return Ok(("", []));
    }
    var clauses: seq<string>, args: seq<Arg> := [], [];
    for k := 0 to |filters|
      invariant AllFiltersAllowed(intent.entity, filters[..k]) && OperatorsKnown(filters[..k])
      invariant clauses == ClauseTexts(Conditions(d, filters[..k]))
      invariant args == Args(filters[..k])
    {
      var f := filters[k];
      var op := OperatorSql(d, f.operator);
      if !AllowedField(intent.entity, f.field) || op.None? {
        assert !AllowedFilter(intent.entity, filters[k]);
        return Err(NotAllowed);
      }
      CompileOneMore(d, filters[..k], f);
      assert filters[..k + 1] == filters[..k] + [f];
      args := args + [Bound(ValueForOperator(f.operator, f.value))];
      clauses := clauses + [f.field + " " + op.value + " " + Placeholder(d, |args|)];
    }
    assert filters[..|filters|] == filters;
    return Ok((" WHERE " + Join(clauses, " AND "), args));
  }

  method RunSelect(d: Dialect, cmp: Comparison, db: Database, ghost intent: QueryIntent,
                   entity: string, cols: seq<string>, where: string, args: seq<Arg>, limit: nat) returns (r: Option<Answer>)
    requires Compilable(intent) && entity == intent.entity && entity in db
    requires cols != [] && forall i | 0 <= i < |cols| :: Word(cols[i])
    requires where == WhereText(Conditions(d, intent.filters)) && args == Args(intent.filters)
    ensures r == Some(Rows(cols, Project(Take(Selected(d, cmp, db, intent), limit), cols)))
  {
    assert |args| == |intent.filters|;
    hide Execute, StatementText, WhereText, Conditions, Args, Selected;
    var query := SelectQuery(cols, entity, Conditions(d, intent.filters), where, Placeholder(d, |args| + 1));
    SelectSelects(d, cmp, db, intent, cols, limit);
    r := Send(d, cmp, db, query, args + [Count(limit)]);
  }

  /** The driver: what the database answers to the text and its arguments. */
  method Send(d: Dialect, cmp: Comparison, db: Database, query: string, args: seq<Arg>) returns (r: Option<Answer>)
    ensures r == Execute(d, cmp, db, query, args)
  {
    r := Execute(d, cmp, db, query, args);
  }

  method SelectQuery(cols: seq<string>, entity: string, ghost conditions: seq<Condition>, where: string, placeholder: string) returns (query: string)
    requires where == WhereText(conditions)
    ensures query == StatementText(Statement(cols, entity, conditions, Limit(placeholder)))
  {
    SelectText(cols, entity, conditions, placeholder);
    query := "SELECT " + Join(cols, ", ") + " FROM " + entity + where + " LIMIT " + placeholder;
  }

  method RunCount(d: Dialect, cmp: Comparison, db: Database, ghost intent: QueryIntent,
                  entity: string, where: string, args: seq<Arg>) returns (r: Option<Answer>)
    requires Compilable(intent) && entity == intent.entity && entity in db
    requires where == WhereText(Conditions(d, intent.filters)) && args == Args(intent.filters)
    ensures r == Some(Rows(["count"], [[Itoa(|Selected(d, cmp, db, intent)|)]]))
  {
    CountIsCompiled(d, cmp, db, intent);
    r := Send(d, cmp, db, "SELECT COUNT(*) FROM " + entity + where, args);
  }

  method RunGroupBy(d: Dialect, cmp: Comparison, db: Database, ghost intent: QueryIntent,
                    entity: string, groupBy: string, where: string, args: seq<Arg>) returns (r: Option<Answer>)
    requires Compilable(intent) && entity == intent.entity && entity in db
    requires entity in ENTITIES && groupBy == intent.groupBy
    requires where == WhereText(Conditions(d, intent.filters)) && args == Args(intent.filters)
    ensures r == if AllowedField(entity, groupBy) then Some(Groups([groupBy, "count"], GroupSizes(Selected(d, cmp, db, intent), groupBy))) else None
  {
    if !AllowedField(entity, groupBy) {
      return None;
    }
    AllowedNamesAreWords(entity);
    GroupByIsCompiled(d, cmp, db, intent);
    var query := "SELECT " + groupBy + ", COUNT(*) FROM " + entity + where + " GROUP BY " + groupBy + " ORDER BY COUNT(*) DESC";
    r := Send(d, cmp, db, query, args);
  }

  /** RunSafeQuery answers what the intent means, and refuses exactly what is not allowlisted. */
  method RunSafeQuery(d: Dialect, cmp: Comparison, db: Database, intent: QueryIntent) returns (r: Result<Answer, StoreError>)
    requires ENTITIES <= db.Keys
    ensures r == RunResult(d, cmp, db, intent)
  {
    if intent.entity !in ENTITIES {
      return Err(NotAllowed);
    }
    var cols := EntityColumns(intent.entity);
    var built := BuildWhereClause(d, intent);
    if built.Err? {
      return Err(built.error);
    }
    AllowedIsCompilable(intent);
    AllowedNamesAreWords(intent.entity);
    var (where, args) := built.value;
    var limit := if intent.limit <= 0 then DEFAULT_LIMIT else intent.limit;
    var answer;
    if intent.aggregate == "count" {
      answer := RunCount(d, cmp, db, intent, intent.entity, where, args);
    } else if intent.aggregate == "group_by" {
      answer := RunGroupBy(d, cmp, db, intent, intent.entity, intent.groupBy, where, args);
    } else {
      answer := RunSelect(d, cmp, db, intent, intent.entity, cols, where, args, limit);
    }
    r := if answer.Some? then Ok(answer.value) else Err(NotAllowed);
  }

  // ----- What an intent means, without SQL -----

  predicate Holds(d: Dialect, cmp: Comparison, row: Row, f: QueryFilter) {
    && f.field in row
    && !row[f.field].Null?
    && if f.operator == "contains" then Matches(d, ContainsPattern(f.value), CellText(row[f.field]))
       else cmp(row[f.field], f.operator, f.value)
  }

  predicate HoldFrom(d: Dialect, cmp: Comparison, row: Row, filters: seq<QueryFilter>, k: nat) {
    forall i | k <= i < |filters| :: Holds(d, cmp, row, filters[i])
  }

  predicate AllHold(d: Dialect, cmp: Comparison, row: Row, filters: seq<QueryFilter>) {
    HoldFrom(d, cmp, row, filters, 0)
  }

  function Selected(d: Dialect, cmp: Comparison, db: Database, intent: QueryIntent): seq<Row>
    requires intent.entity in db
  {
    Filter(db[intent.entity], row => AllHold(d, cmp, row, intent.filters))
  }

  function Meaning(d: Dialect, cmp: Comparison, db: Database, intent: QueryIntent): Answer
    requires intent.entity in db
  {
    var rows := Selected(d, cmp, db, intent);
    if intent.aggregate == "count" then Rows(["count"], [[Itoa(|rows|)]])
    else if intent.aggregate == "group_by" then Groups([intent.groupBy, "count"], GroupSizes(rows, intent.groupBy))
    else
      var cols := EntityColumns(intent.entity);
      Rows(cols, Project(Take(rows, if intent.limit <= 0 then DEFAULT_LIMIT else intent.limit), cols))
  }

  function RunResult(d: Dialect, cmp: Comparison, db: Database, intent: QueryIntent): Result<Answer, StoreError>
    requires ENTITIES <= db.Keys
  {
    if intent.entity !in ENTITIES || !AllFiltersAllowed(intent.entity, intent.filters)
      || (intent.aggregate == "group_by" && !AllowedField(intent.entity, intent.groupBy))
    then Err(NotAllowed)
    else Ok(Meaning(d, cmp, db, intent))
  }

  // ----- Statement text is read back as the statement -----

  /** A column list as words: every one but the last keeps its comma. */
  function ColumnWords(cols: seq<string>): seq<string> {
    if |cols| <= 1 then cols else [cols[0] + ","] + ColumnWords(cols[1..])
  }

  function ConditionWords(where: seq<Condition>): seq<string> {
    if where == [] then []
    else
      [where[0].field, where[0].operator, where[0].placeholder]
      + if |where| == 1 then [] else ["AND"] + ConditionWords(where[1..])
  }

  function WhereWords(where: seq<Condition>): seq<string> {
    if where == [] then [] else ["WHERE"] + ConditionWords(where)
  }

  function TailWords(tail: Tail): seq<string> {
    match tail
    case End => []
    case Limit(p) => ["LIMIT", p]
    case GroupBy(k) => ["GROUP", "BY", k, "ORDER", "BY", "COUNT(*)", "DESC"]
  }

  function Words(s: Statement): seq<string> {
    ["SELECT"] + ColumnWords(s.columns) + ["FROM", s.entity] + WhereWords(s.where) + TailWords(s.tail)
  }

  ghost predicate NoSpaces(words: seq<string>) {
    forall i | 0 <= i < |words| :: ' ' !in words[i]
  }

  /** Every part of the statement is a word. */
  ghost predicate WellWorded(s: Statement) {
    && s.columns != []
    && (forall i | 0 <= i < |s.columns| :: Word(s.columns[i]))
    && Word(s.entity)
    && WordedConditions(s.where)
    && (s.tail.Limit? ==> Word(s.tail.placeholder))
    && (s.tail.GroupBy? ==> Word(s.tail.key))
  }

  function TailText(tail: Tail): string {
    if TailWords(tail) == [] then "" else " " + Join(TailWords(tail), " ")
  }

  lemma LimitText(p: string)
    ensures TailText(Limit(p)) == " LIMIT " + p
  {
    JoinOfSum(["LIMIT"], [p], " ");
    assert ["LIMIT"] + [p] == ["LIMIT", p];
  }

  lemma OrderText()
    ensures Join(["ORDER", "BY", "COUNT(*)", "DESC"], " ") == "ORDER BY COUNT(*) DESC"
  {
    var order := ["ORDER", "BY", "COUNT(*)"];
    JoinThree("ORDER", "BY", "COUNT(*)");
    JoinOfSum(order, ["DESC"], " ");
    assert order + ["DESC"] == ["ORDER", "BY", "COUNT(*)", "DESC"];
    assert "ORDER" + " " + "BY" + " " + "COUNT(*)" + " " + "DESC" == "ORDER BY COUNT(*) DESC";
  }

  lemma GroupHeadText(k: string)
    ensures Join(["GROUP", "BY", k], " ") == "GROUP BY " + k
  {
    JoinThree("GROUP", "BY", k);
    assert "GROUP" + " " + "BY" + " " == "GROUP BY ";
    assert "GROUP" + " " + "BY" + " " + k == "GROUP BY " + k;
  }

  lemma GroupByText(k: string)
    ensures TailText(GroupBy(k)) == " GROUP BY " + k + " ORDER BY COUNT(*) DESC"
  {
    var group, order := ["GROUP", "BY", k], ["ORDER", "BY", "COUNT(*)", "DESC"];
    assert Join(group, " ") == "GROUP BY " + k by {
      GroupHeadText(k);
    }
    assert Join(order, " ") == "ORDER BY COUNT(*) DESC" by {
      OrderText();
    }
    JoinOfSum(group, order, " ");
    assert group + order == TailWords(GroupBy(k));
    GroupSpaces(k);
  }

  lemma GroupSpaces(k: string)
    ensures " " + ("GROUP BY " + k + " " + "ORDER BY COUNT(*) DESC") == " GROUP BY " + k + " ORDER BY COUNT(*) DESC"
  {
    SpacedOut(k, "GROUP BY ", "ORDER BY COUNT(*) DESC");
    assert " " + "GROUP BY " == " GROUP BY ";
    assert " " + "ORDER BY COUNT(*) DESC" == " ORDER BY COUNT(*) DESC";
  }

  lemma SpacedOut(k: string, before: string, after: string)
    ensures " " + (before + k + " " + after) == (" " + before) + k + (" " + after)
  {
  }

  function StatementText(s: Statement): string {
    "SELECT " + Join(s.columns, ", ") + " FROM " + s.entity + WhereText(s.where) + TailText(s.tail)
  }

  lemma {:induction false} ColumnsJoin(cols: seq<string>)
    requires cols != []
    ensures ColumnWords(cols) != [] && Join(cols, ", ") == Join(ColumnWords(cols), " ")
  {
    if |cols| > 1 {
      ColumnsJoin(cols[1..]);
      assert cols[0] + ", " + Join(cols[1..], ", ") == cols[0] + "," + " " + Join(cols[1..], ", ");
      assert ColumnWords(cols)[1..] == ColumnWords(cols[1..]);
    }
  }

  lemma JoinThree(a: string, b: string, c: string)
    ensures Join([a, b, c], " ") == a + " " + b + " " + c
  {
    JoinOfSum([a], [b, c], " ");
    JoinOfSum([b], [c], " ");
    assert [a] + [b, c] == [a, b, c] && [b] + [c] == [b, c];
    assert a + " " + (b + " " + c) == a + " " + b + " " + c;
  }

  lemma {:induction false} ConditionsJoin(where: seq<Condition>)
    requires where != []
    ensures ConditionWords(where) != [] && Join(ClauseTexts(where), " AND ") == Join(ConditionWords(where), " ")
  {
    var c := where[0];
    JoinThree(c.field, c.operator, c.placeholder);
    var first := [c.field, c.operator, c.placeholder];
    if |where| == 1 {
      assert ConditionWords(where) == first && ClauseTexts(where) == [ClauseText(c)];
    } else {
      var rest := where[1..];
      ConditionsJoin(rest);
      assert ClauseTexts(where)[1..] == ClauseTexts(rest);
      JoinOfSum(["AND"], ConditionWords(rest), " ");
      JoinOfSum(first, ["AND"] + ConditionWords(rest), " ");
      AndBetween(ClauseText(c), Join(ClauseTexts(rest), " AND "));
    }
  }

  lemma AndBetween(a: string, b: string)
    ensures a + " AND " + b == a + " " + ("AND" + " " + b)
  {
  }

  lemma WhereJoins(words: seq<string>, where: seq<Condition>)
    requires words != []
    ensures Join(words + WhereWords(where), " ") == Join(words, " ") + WhereText(where)
  {
    if where == [] {
      assert words + WhereWords(where) == words;
    } else {
      ConditionsJoin(where);
      JoinOfSum(["WHERE"], ConditionWords(where), " ");
      JoinOfSum(words, WhereWords(where), " ");
    }
  }

  lemma TailJoins(words: seq<string>, tail: Tail)
    requires words != []
    ensures Join(words + TailWords(tail), " ") == Join(words, " ") + TailText(tail)
  {
    if tail.End? {
      assert words + TailWords(tail) == words;
    } else {
      JoinOfSum(words, TailWords(tail), " ");
    }
  }

  lemma TextIsWords(s: Statement)
    requires s.columns != []
    ensures StatementText(s) == Join(Words(s), " ")
  {
    hide ColumnWords, WhereWords;
    ColumnsJoin(s.columns);
    var cols := ColumnWords(s.columns);
    JoinOfSum(["SELECT"], cols, " ");
    JoinOfSum(["FROM"], [s.entity], " ");
    assert ["FROM"] + [s.entity] == ["FROM", s.entity];
    var head := ["SELECT"] + cols + ["FROM", s.entity];
    JoinOfSum(["SELECT"] + cols, ["FROM", s.entity], " ");
    assert Join(head, " ") == "SELECT " + Join(s.columns, ", ") + " FROM " + s.entity;
    WhereJoins(head, s.where);
    TailJoins(head + WhereWords(s.where), s.tail);
  }

  lemma {:induction false} ColumnWordsRead(cols: seq<string>, rest: seq<string>)
    requires cols != [] && forall i | 0 <= i < |cols| :: Word(cols[i])
    ensures ReadColumns(ColumnWords(cols) + ["FROM"] + rest) == Some((cols, rest))
  {
    var toks := ColumnWords(cols) + ["FROM"] + rest;
    if |cols| == 1 {
      assert toks[0] == cols[0] && toks[1] == "FROM" && toks[2..] == rest;
      assert cols == [cols[0]];
    } else {
      ColumnWordsRead(cols[1..], rest);
      assert toks[0] == cols[0] + "," && toks[0][..|toks[0]| - 1] == cols[0];
      assert toks[1..] == ColumnWords(cols[1..]) + ["FROM"] + rest;
      assert [cols[0]] + cols[1..] == cols;
    }
  }

  lemma {:induction false} ConditionWordsRead(where: seq<Condition>, rest: seq<string>)
    requires where != [] && (rest != [] ==> rest[0] != "AND")
    ensures ReadConditions(ConditionWords(where) + rest) == Some((where, rest))
  {
    var c := where[0];
    if |where| == 1 {
      LastConditionRead(c, rest);
      assert ConditionWords(where) == [c.field, c.operator, c.placeholder] && where == [c];
    } else {
      var more := ConditionWords(where[1..]) + rest;
      ConditionWordsRead(where[1..], rest);
      MoreConditionWords(where, rest);
      OneConditionRead(c, more, where[1..], rest);
      assert [c] + where[1..] == where;
    }
  }

  lemma MoreConditionWords(where: seq<Condition>, rest: seq<string>)
    requires |where| > 1
    ensures ConditionWords(where) + rest
         == [where[0].field, where[0].operator, where[0].placeholder, "AND"] + (ConditionWords(where[1..]) + rest)
  {
    var c, others := where[0], ConditionWords(where[1..]);
    assert ConditionWords(where) == [c.field, c.operator, c.placeholder] + (["AND"] + others);
    FourThenMore(c.field, c.operator, c.placeholder, others, rest);
  }

  lemma FourThenMore(x: string, y: string, z: string, others: seq<string>, rest: seq<string>)
    ensures [x, y, z] + (["AND"] + others) + rest == [x, y, z, "AND"] + (others + rest)
  {
  }

  ghost predicate WordedConditions(where: seq<Condition>) {
    forall i | 0 <= i < |where| :: Word(where[i].field) && Word(where[i].operator) && Word(where[i].placeholder)
  }

  lemma {:induction false} ConditionWordsHaveNoSpaces(where: seq<Condition>)
    requires WordedConditions(where)
    ensures NoSpaces(ConditionWords(where))
  {
    if where != [] {
      var c := where[0];
      assert NoSpaces([c.field, c.operator, c.placeholder]);
      if |where| > 1 {
        assert forall i | 0 <= i < |where[1..]| :: where[1..][i] == where[i + 1];
        ConditionWordsHaveNoSpaces(where[1..]);
        NoSpacesInSum(["AND"], ConditionWords(where[1..]));
        NoSpacesInSum([c.field, c.operator, c.placeholder], ["AND"] + ConditionWords(where[1..]));
      }
    }
  }

  lemma LastConditionRead(c: Condition, rest: seq<string>)
    requires rest != [] ==> rest[0] != "AND"
    ensures ReadConditions([c.field, c.operator, c.placeholder] + rest) == Some(([c], rest))
  {
    var toks := [c.field, c.operator, c.placeholder] + rest;
    assert toks[0] == c.field && toks[1] == c.operator && toks[2] == c.placeholder && toks[3..] == rest;
  }

  lemma OneConditionRead(c: Condition, more: seq<string>, where: seq<Condition>, rest: seq<string>)
    requires ReadConditions(more) == Some((where, rest))
    ensures ReadConditions([c.field, c.operator, c.placeholder, "AND"] + more) == Some(([c] + where, rest))
  {
    var toks := [c.field, c.operator, c.placeholder, "AND"] + more;
    assert toks[0] == c.field && toks[1] == c.operator && toks[2] == c.placeholder && toks[3] == "AND" && toks[4..] == more;
  }

  lemma WhereWordsRead(where: seq<Condition>, tail: Tail)
    ensures ReadWhere(WhereWords(where) + TailWords(tail)) == Some((where, TailWords(tail)))
  {
    if where == [] {
      assert [] + TailWords(tail) == TailWords(tail);
    } else {
      var words := ConditionWords(where) + TailWords(tail);
      ConditionWordsRead(where, TailWords(tail));
      assert WhereWords(where) + TailWords(tail) == ["WHERE"] + words;
      assert (["WHERE"] + words)[1..] == words;
    }
  }

  lemma WhereWordsHaveNoSpaces(where: seq<Condition>)
    requires WordedConditions(where)
    ensures NoSpaces(WhereWords(where))
  {
    ConditionWordsHaveNoSpaces(where);
    NoSpacesInSum(["WHERE"], ConditionWords(where));
  }

  lemma TailWordsRead(tail: Tail)
    ensures ReadTail(TailWords(tail)) == Some(tail)
  {
    if tail.GroupBy? {
      assert TailWords(tail)[3..] == ["ORDER", "BY", "COUNT(*)", "DESC"];
    }
  }

  lemma WordsRead(s: Statement)
    requires WellWorded(s)
    ensures ReadTokens(Words(s)) == Some(s)
  {
    var afterEntity := WhereWords(s.where) + TailWords(s.tail);
    var rest := [s.entity] + afterEntity;
    var toks := ColumnWords(s.columns) + ["FROM"] + rest;
    assert ReadColumns(toks) == Some((s.columns, rest)) by {
      ColumnWordsRead(s.columns, rest);
    }
    assert ReadWhere(afterEntity) == Some((s.where, TailWords(s.tail))) by {
      WhereWordsRead(s.where, s.tail);
    }
    assert ReadTail(TailWords(s.tail)) == Some(s.tail) by {
      TailWordsRead(s.tail);
    }
    assert ReadTokens(["SELECT"] + toks) == Some(s) by {
      TokensRead(toks, s.columns, s.entity, afterEntity, s.where, TailWords(s.tail), s.tail);
    }
    WordsSplit(s);
  }

  lemma WordsSplit(s: Statement)
    ensures Words(s) == ["SELECT"] + (ColumnWords(s.columns) + ["FROM"] + ([s.entity] + (WhereWords(s.where) + TailWords(s.tail))))
  {
  }

  lemma TokensRead(toks: seq<string>, columns: seq<string>, entity: string, afterEntity: seq<string>,
                   where: seq<Condition>, rest: seq<string>, tail: Tail)
    requires ReadColumns(toks) == Some((columns, [entity] + afterEntity))
    requires ReadWhere(afterEntity) == Some((where, rest)) && ReadTail(rest) == Some(tail)
    ensures ReadTokens(["SELECT"] + toks) == Some(Statement(columns, entity, where, tail))
  {
    assert (["SELECT"] + toks)[1..] == toks && ([entity] + afterEntity)[1..] == afterEntity;
  }

  lemma NoSpacesInSum(a: seq<string>, b: seq<string>)
    requires NoSpaces(a) && NoSpaces(b)
    ensures NoSpaces(a + b)
  {
  }

  lemma {:induction false} ColumnWordsHaveNoSpaces(cols: seq<string>)
    requires forall i | 0 <= i < |cols| :: Word(cols[i])
    ensures NoSpaces(ColumnWords(cols))
  {
    if |cols| > 1 {
      assert forall i | 0 <= i < |cols[1..]| :: cols[1..][i] == cols[i + 1];
      ColumnWordsHaveNoSpaces(cols[1..]);
      NoSpacesInSum([cols[0] + ","], ColumnWords(cols[1..]));
    }
  }

  lemma WordsHaveNoSpaces(s: Statement)
    requires WellWorded(s)
    ensures NoSpaces(Words(s))
  {
    var columns, middle, where := ColumnWords(s.columns), ["FROM", s.entity], WhereWords(s.where);
    ColumnWordsHaveNoSpaces(s.columns);
    WhereWordsHaveNoSpaces(s.where);
    NoSpacesInSum(["SELECT"], columns);
    NoSpacesInSum(["SELECT"] + columns, middle);
    NoSpacesInSum(["SELECT"] + columns + middle, where);
    NoSpacesInSum(["SELECT"] + columns + middle + where, TailWords(s.tail));
  }

  /** The text of a statement is read back as the statement, placeholders and all. */
  lemma StatementTextIsReadBack(s: Statement)
    requires WellWorded(s)
    ensures ReadStatement(StatementText(s)) == Some(s)
  {
    TextIsWords(s);
    WordsHaveNoSpaces(s);
    SplitOfJoin(Words(s), ' ');
    WordsRead(s);
  }

  // ----- Compiling preserves meaning -----

  lemma PlaceholderBinds(d: Dialect, args: seq<Arg>, k: nat)
    requires k < |args|
    ensures Word(Placeholder(d, k + 1)) && Bind(d, Placeholder(d, k + 1), args, k) == Some(args[k])
  {
    if d.Postgres? {
      var digits := Itoa(k + 1);
      ItoaIsDecimal(k + 1);
      assert ("$" + digits)[1..] == digits;
      assert forall i | 0 <= i < |digits| :: digits[i] != ' ' && digits[i] != ',';
    }
  }

  /** Clause k binds value k, so the clauses from k on mean the filters from k on. */
  lemma {:induction false} ConditionsMeanFilters(d: Dialect, cmp: Comparison, row: Row, filters: seq<QueryFilter>, extra: seq<Arg>, k: nat)
    requires OperatorsKnown(filters) && k <= |filters|
    ensures MeetsAll(d, cmp, row, Conditions(d, filters)[k..], Args(filters) + extra, k) == Some(HoldFrom(d, cmp, row, filters, k))
    decreases |filters| - k
  {
    var where, args := Conditions(d, filters), Args(filters) + extra;
    if k < |filters| {
      ConditionsMeanFilters(d, cmp, row, filters, extra, k + 1);
      ConditionMeansFilter(d, cmp, row, filters, extra, k);
      var value := ValueForOperator(filters[k].operator, filters[k].value);
      assert where[k..] == [where[k]] + where[k + 1..];
      MeetsAllStep(d, cmp, row, where[k], where[k + 1..], args, k, value, HoldFrom(d, cmp, row, filters, k + 1));
      HoldFromStep(d, cmp, row, filters, k);
    }
  }

  lemma HoldFromStep(d: Dialect, cmp: Comparison, row: Row, filters: seq<QueryFilter>, k: nat)
    requires k < |filters|
    ensures HoldFrom(d, cmp, row, filters, k) <==> Holds(d, cmp, row, filters[k]) && HoldFrom(d, cmp, row, filters, k + 1)
  {
  }

  lemma MeetsAllStep(d: Dialect, cmp: Comparison, row: Row, c: Condition, rest: seq<Condition>, args: seq<Arg>, k: nat, value: string, others: bool)
    requires Bind(d, c.placeholder, args, k) == Some(Bound(value))
    requires MeetsAll(d, cmp, row, rest, args, k + 1) == Some(others)
    ensures MeetsAll(d, cmp, row, [c] + rest, args, k) == Some(Satisfies(d, cmp, row, c.field, c.operator, value) && others)
  {
    assert ([c] + rest)[0] == c && ([c] + rest)[1..] == rest;
  }

  lemma ConditionMeansFilter(d: Dialect, cmp: Comparison, row: Row, filters: seq<QueryFilter>, extra: seq<Arg>, k: nat)
    requires OperatorsKnown(filters) && k < |filters|
    ensures var c, value := Conditions(d, filters)[k], ValueForOperator(filters[k].operator, filters[k].value);
      && Bind(d, c.placeholder, Args(filters) + extra, k) == Some(Bound(value))
      && Satisfies(d, cmp, row, c.field, c.operator, value) == Holds(d, cmp, row, filters[k])
  {
    var args := Args(filters) + extra;
    PlaceholderBinds(d, args, k);
    assert args[k] == Bound(ValueForOperator(filters[k].operator, filters[k].value));
  }

  lemma {:induction false} FilterSame(rows: seq<Row>, p: Row -> bool, q: Row -> bool)
    requires forall i | 0 <= i < |rows| :: p(rows[i]) == q(rows[i])
    ensures Filter(rows, p) == Filter(rows, q)
  {
    if rows != [] {
      FilterSame(rows[1..], p, q);
    }
  }

  /** Running a compiled statement concludes from the rows the filters select. */
  lemma CompiledStatementSelects(d: Dialect, cmp: Comparison, db: Database, intent: QueryIntent,
                                 columns: seq<string>, tail: Tail, extra: seq<Arg>)
    requires Compilable(intent) && intent.entity in db
    requires var s := Statement(columns, intent.entity, Conditions(d, intent.filters), tail); WellWorded(s)
    ensures var s := Statement(columns, intent.entity, Conditions(d, intent.filters), tail);
      Execute(d, cmp, db, StatementText(s), Args(intent.filters) + extra)
      == Conclude(d, s, Selected(d, cmp, db, intent), Args(intent.filters) + extra)
  {
    var s := Statement(columns, intent.entity, Conditions(d, intent.filters), tail);
    var args := Args(intent.filters) + extra;
    StatementTextIsReadBack(s);
    forall row: Row ensures MeetsAll(d, cmp, row, s.where, args, 0) == Some(AllHold(d, cmp, row, intent.filters)) {
      ConditionsMeanFilters(d, cmp, row, intent.filters, extra, 0);
      assert s.where[0..] == s.where;
    }
    FilterSame(db[intent.entity], row => MeetsAll(d, cmp, row, s.where, args, 0) == Some(true), row => AllHold(d, cmp, row, intent.filters));
  }

  lemma CompiledIsWellWorded(d: Dialect, intent: QueryIntent, columns: seq<string>, tail: Tail)
    requires Compilable(intent)
    requires columns != [] && forall i | 0 <= i < |columns| :: Word(columns[i])
    requires (tail.Limit? ==> Word(tail.placeholder)) && (tail.GroupBy? ==> Word(tail.key))
    ensures WellWorded(Statement(columns, intent.entity, Conditions(d, intent.filters), tail))
  {
    hide Bind, Placeholder;
    var where := Conditions(d, intent.filters);
    forall i | 0 <= i < |where| ensures Word(where[i].field) && Word(where[i].operator) && Word(where[i].placeholder) {
      PlaceholderBinds(d, Args(intent.filters), i);
    }
  }

  lemma SelectText(cols: seq<string>, entity: string, where: seq<Condition>, p: string)
    ensures StatementText(Statement(cols, entity, where, Limit(p)))
         == "SELECT " + Join(cols, ", ") + " FROM " + entity + WhereText(where) + " LIMIT " + p
  {
    LimitText(p);
    var head := "SELECT " + Join(cols, ", ") + " FROM " + entity + WhereText(where);
    assert head + (" LIMIT " + p) == head + " LIMIT " + p;
  }

  lemma CountText(entity: string, where: seq<Condition>)
    ensures StatementText(Statement([COUNT_STAR], entity, where, End)) == "SELECT COUNT(*) FROM " + entity + WhereText(where)
  {
    assert Join([COUNT_STAR], ", ") == COUNT_STAR;
    assert "SELECT " + COUNT_STAR + " FROM " == "SELECT COUNT(*) FROM ";
    var text := "SELECT COUNT(*) FROM " + entity + WhereText(where);
    assert text + "" == text;
  }

  lemma GroupText(g: string, entity: string, where: seq<Condition>)
    ensures StatementText(Statement([g, COUNT_STAR], entity, where, GroupBy(g)))
         == "SELECT " + g + ", COUNT(*) FROM " + entity + WhereText(where) + " GROUP BY " + g + " ORDER BY COUNT(*) DESC"
  {
    GroupByText(g);
    JoinOfSum([g], [COUNT_STAR], ", ");
    assert [g] + [COUNT_STAR] == [g, COUNT_STAR];
    assert "SELECT " + (g + ", " + COUNT_STAR) + " FROM " == "SELECT " + g + ", COUNT(*) FROM ";
    var head, tail := "SELECT " + g + ", COUNT(*) FROM " + entity + WhereText(where), " ORDER BY COUNT(*) DESC";
    assert head + (" GROUP BY " + g + tail) == head + " GROUP BY " + g + tail;
  }

  lemma SelectSelects(d: Dialect, cmp: Comparison, db: Database, intent: QueryIntent, cols: seq<string>, limit: nat)
    requires Compilable(intent) && intent.entity in db
    requires cols != [] && forall i | 0 <= i < |cols| :: Word(cols[i])
    ensures Execute(d, cmp, db,
                    StatementText(Statement(cols, intent.entity, Conditions(d, intent.filters), Limit(Placeholder(d, |intent.filters| + 1)))),
                    Args(intent.filters) + [Count(limit)])
      == Some(Rows(cols, Project(Take(Selected(d, cmp, db, intent), limit), cols)))
  {
    var p := Placeholder(d, |intent.filters| + 1);
    LimitIsBound(d, intent, cols, Selected(d, cmp, db, intent), limit);
    CompiledIsWellWorded(d, intent, cols, Limit(p));
    CompiledStatementSelects(d, cmp, db, intent, cols, Limit(p), [Count(limit)]);
  }

  /** The text that is sent selects the intent's rows, LIMIT's placeholder bound after the filters'. */
  lemma SelectIsCompiled(d: Dialect, cmp: Comparison, db: Database, intent: QueryIntent, cols: seq<string>, limit: nat)
    requires Compilable(intent) && intent.entity in db
    requires cols != [] && forall i | 0 <= i < |cols| :: Word(cols[i])
    ensures Execute(d, cmp, db,
                    "SELECT " + Join(cols, ", ") + " FROM " + intent.entity + WhereText(Conditions(d, intent.filters)) + " LIMIT " + Placeholder(d, |intent.filters| + 1),
                    Args(intent.filters) + [Count(limit)])
      == Some(Rows(cols, Project(Take(Selected(d, cmp, db, intent), limit), cols)))
  {
    SelectSelects(d, cmp, db, intent, cols, limit);
    SelectText(cols, intent.entity, Conditions(d, intent.filters), Placeholder(d, |intent.filters| + 1));
  }

  /** LIMIT's placeholder comes after the filters' and binds the argument after theirs. */
  lemma LimitIsBound(d: Dialect, intent: QueryIntent, cols: seq<string>, rows: seq<Row>, limit: nat)
    requires Compilable(intent)
    ensures var p := Placeholder(d, |intent.filters| + 1);
      && Word(p)
      && Conclude(d, Statement(cols, intent.entity, Conditions(d, intent.filters), Limit(p)), rows, Args(intent.filters) + [Count(limit)])
         == Some(Rows(cols, Project(Take(rows, limit), cols)))
  {
    hide Conclude, Bind, Word;
    var p, args := Placeholder(d, |intent.filters| + 1), Args(intent.filters) + [Count(limit)];
    assert args[|intent.filters|] == Count(limit);
    PlaceholderBinds(d, args, |intent.filters|);
    LimitConcludes(d, Statement(cols, intent.entity, Conditions(d, intent.filters), Limit(p)), rows, args, limit);
  }

  lemma LimitConcludes(d: Dialect, s: Statement, rows: seq<Row>, args: seq<Arg>, limit: nat)
    requires s.tail.Limit? && Bind(d, s.tail.placeholder, args, |s.where|) == Some(Count(limit))
    ensures Conclude(d, s, rows, args) == Some(Rows(s.columns, Project(Take(rows, limit), s.columns)))
  {
  }

  lemma CountIsCompiled(d: Dialect, cmp: Comparison, db: Database, intent: QueryIntent)
    requires Compilable(intent) && intent.entity in db
    ensures Execute(d, cmp, db, "SELECT COUNT(*) FROM " + intent.entity + WhereText(Conditions(d, intent.filters)), Args(intent.filters))
      == Some(Rows(["count"], [[Itoa(|Selected(d, cmp, db, intent)|)]]))
  {
    CompiledIsWellWorded(d, intent, [COUNT_STAR], End);
    CompiledStatementSelects(d, cmp, db, intent, [COUNT_STAR], End, []);
    assert Args(intent.filters) + [] == Args(intent.filters);
    CountText(intent.entity, Conditions(d, intent.filters));
  }

  lemma GroupByIsCompiled(d: Dialect, cmp: Comparison, db: Database, intent: QueryIntent)
    requires Compilable(intent) && intent.entity in db && Word(intent.groupBy)
    ensures Execute(d, cmp, db,
                    "SELECT " + intent.groupBy + ", COUNT(*) FROM " + intent.entity + WhereText(Conditions(d, intent.filters))
                    + " GROUP BY " + intent.groupBy + " ORDER BY COUNT(*) DESC",
                    Args(intent.filters))
      == Some(Groups([intent.groupBy, "count"], GroupSizes(Selected(d, cmp, db, intent), intent.groupBy)))
  {
    var g := intent.groupBy;
    CompiledIsWellWorded(d, intent, [g, COUNT_STAR], GroupBy(g));
    CompiledStatementSelects(d, cmp, db, intent, [g, COUNT_STAR], GroupBy(g), []);
    assert Args(intent.filters) + [] == Args(intent.filters);
    GroupText(g, intent.entity, Conditions(d, intent.filters));
  }

  // ----- Consequences -----

  /** Values never reach the text: it is the same for any two filter lists with the same fields and operators. */
  lemma TextIgnoresValues(d: Dialect, a: seq<QueryFilter>, b: seq<QueryFilter>)
    requires |a| == |b| && OperatorsKnown(a)
    requires forall i | 0 <= i < |a| :: a[i].field == b[i].field && a[i].operator == b[i].operator
    ensures WhereText(Conditions(d, a)) == WhereText(Conditions(d, b))
  {
    assert Conditions(d, a) == Conditions(d, b);
  }
}
