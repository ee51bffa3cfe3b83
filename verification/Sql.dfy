/**
 A small SQL: the statements the safe query stores build, read from their text and run.

 The reader splits the text at spaces and knows nothing of how the text was built. How a column
 compares with a bound string under =, > and < is a parameter: it depends on column types and
 collations.
 */
module Sql {
  import opened Wrappers
  import opened Text
  import opened Like

  datatype Cell = Null | Str(text: string) | Num(number: nat)

  type Row = map<string, Cell>
  type Database = map<string, seq<Row>>
  type Comparison = (Cell, string, string) -> bool

  datatype Arg = Bound(text: string) | Count(number: int)

  datatype Condition = Condition(field: string, operator: string, placeholder: string)

  datatype Tail = End | Limit(placeholder: string) | GroupBy(key: string)

  datatype Statement = Statement(columns: seq<string>, entity: string, where: seq<Condition>, tail: Tail)

  /** Rows in table order, or the size of each group; the order of groups is left to the engine. */
  datatype Answer =
    | Rows(columns: seq<string>, rows: seq<seq<string>>)
    | Groups(columns: seq<string>, sizes: map<Cell, nat>)

  // ----- Reading -----

  /** A comma-separated column list up to FROM. */
  function ReadColumns(toks: seq<string>): Option<(seq<string>, seq<string>)> {
    if |toks| < 2 || toks[0] == "" then None
    else
      var t := toks[0];
      if t[|t| - 1] == ',' then
        match ReadColumns(toks[1..])
        case None => None
        case Some((cols, rest)) => Some(([t[..|t| - 1]] + cols, rest))
      else if toks[1] == "FROM" then Some(([t], toks[2..]))
      else None
  }

  /** Conditions joined by AND. */
  function ReadConditions(toks: seq<string>): Option<(seq<Condition>, seq<string>)> {
    if |toks| < 3 then None
    else
      var c := Condition(toks[0], toks[1], toks[2]);
      if |toks| > 3 && toks[3] == "AND" then
        match ReadConditions(toks[4..])
        case None => None
        case Some((cs, rest)) => Some(([c] + cs, rest))
      else Some(([c], toks[3..]))
  }

  function ReadWhere(toks: seq<string>): Option<(seq<Condition>, seq<string>)> {
    if |toks| > 0 && toks[0] == "WHERE" then ReadConditions(toks[1..]) else Some(([], toks))
  }

  function ReadTail(toks: seq<string>): Option<Tail> {
    if toks == [] then Some(End)
    else if |toks| == 2 && toks[0] == "LIMIT" then Some(Limit(toks[1]))
    else if |toks| == 7 && toks[0] == "GROUP" && toks[1] == "BY" && toks[3..] == ["ORDER", "BY", "COUNT(*)", "DESC"] then
      Some(GroupBy(toks[2]))
    else None
  }

  function ReadStatement(text: string): Option<Statement> {
    ReadTokens(Split(text, ' '))
  }

  function ReadTokens(toks: seq<string>): Option<Statement> {
    if toks == [] || toks[0] != "SELECT" then None
    else
      match ReadColumns(toks[1..])
      case None => None
      case Some((columns, afterFrom)) =>
        if afterFrom == [] then None
        else
          match ReadWhere(afterFrom[1..])
          case None => None
          case Some((where, rest)) =>
            match ReadTail(rest)
            case None => None
            case Some(tail) => Some(Statement(columns, afterFrom[0], where, tail))
  }

  // ----- Running -----

  /** The argument a placeholder stands for; `ordinal` counts the placeholders before it. */
  function Bind(d: Dialect, placeholder: string, args: seq<Arg>, ordinal: nat): Option<Arg> {
    match d
    case Sqlite => if placeholder == "?" && ordinal < |args| then Some(args[ordinal]) else None
    case Postgres =>
      if |placeholder| > 1 && placeholder[0] == '$' && AllDigits(placeholder[1..]) then
        var n := NumberOf(placeholder[1..]);
        if 1 <= n <= |args| then Some(args[n - 1]) else None
      else None
  }

  function CellText(c: Cell): string
    requires !c.Null?
  {
    if c.Str? then c.text else Itoa(c.number)
  }

  function MatchOperator(d: Dialect): string {
    if d.Sqlite? then "LIKE" else "ILIKE"
  }

  /** One condition on one row; a comparison with NULL is not true. */
  predicate Satisfies(d: Dialect, cmp: Comparison, row: Row, field: string, operator: string, value: string) {
    && field in row
    && !row[field].Null?
    && if operator == MatchOperator(d) then Matches(d, value, CellText(row[field])) else cmp(row[field], operator, value)
  }

  /** Whether the row meets every condition; None when a placeholder has no string bound to it. */
  function MeetsAll(d: Dialect, cmp: Comparison, row: Row, where: seq<Condition>, args: seq<Arg>, ordinal: nat): Option<bool>
    decreases |where|
  {
    if where == [] then Some(true)
    else
      match Bind(d, where[0].placeholder, args, ordinal)
      case Some(Bound(value)) =>
        (match MeetsAll(d, cmp, row, where[1..], args, ordinal + 1)
         case None => None
         case Some(rest) => Some(Satisfies(d, cmp, row, where[0].field, where[0].operator, value) && rest))
      case _ => None
  }

  function Filter(rows: seq<Row>, keep: Row -> bool): seq<Row> {
    if rows == [] then []
    else if keep(rows[0]) then [rows[0]] + Filter(rows[1..], keep)
    else Filter(rows[1..], keep)
  }

  function Take<T>(s: seq<T>, n: nat): seq<T> {
    if n < |s| then s[..n] else s
  }

  function Shown(row: Row, column: string): string {
    if column in row && !row[column].Null? then CellText(row[column]) else ""
  }

  function Project(rows: seq<Row>, columns: seq<string>): seq<seq<string>> {
    seq(|rows|, i requires 0 <= i < |rows| => seq(|columns|, j requires 0 <= j < |columns| => Shown(rows[i], columns[j])))
  }

  function KeyOf(row: Row, key: string): Cell {
    if key in row then row[key] else Null
  }

  function GroupSizes(rows: seq<Row>, key: string): map<Cell, nat> {
    if rows == [] then map[]
    else
      var sizes := GroupSizes(rows[1..], key);
      var k := KeyOf(rows[0], key);
      sizes[k := if k in sizes then sizes[k] + 1 else 1]
  }

  const COUNT_STAR := "COUNT(*)"

  /** What the statement answers from the rows its conditions select. */
  function Conclude(d: Dialect, s: Statement, rows: seq<Row>, args: seq<Arg>): Option<Answer> {
    match s.tail
    case GroupBy(key) =>
      if s.columns == [key, COUNT_STAR] then Some(Groups([key, "count"], GroupSizes(rows, key))) else None
    case End =>
      if s.columns == [COUNT_STAR] then Some(Rows(["count"], [[Itoa(|rows|)]])) else None
    case Limit(p) =>
      match Bind(d, p, args, |s.where|)
      case Some(Count(n)) => if n >= 0 then Some(Rows(s.columns, Project(Take(rows, n), s.columns))) else None
      case _ => None
  }

  function Execute(d: Dialect, cmp: Comparison, db: Database, text: string, args: seq<Arg>): Option<Answer> {
    match ReadStatement(text)
    case None => None
    case Some(s) =>
      if s.entity !in db then None
      else if exists row | row in db[s.entity] :: MeetsAll(d, cmp, row, s.where, args, 0).None? then None
      else Conclude(d, s, Filter(db[s.entity], row => MeetsAll(d, cmp, row, s.where, args, 0) == Some(true)), args)
  }
}
