/** When the ? form and the $n form of a compiled query answer alike. */
module Dialects {
  import opened Text
  import opened Like
  import opened Query
  import opened Sql
  import opened SafeQuery

  predicate Contains(f: QueryFilter) {
    f.operator == "contains"
  }

  /** A value that the two dialects match differently. */
  predicate Escaping(f: QueryFilter) {
    Contains(f) && '\\' in f.value
  }

  predicate NoneEscapes(filters: seq<QueryFilter>) {
    forall i | 0 <= i < |filters| :: !Escaping(filters[i])
  }

  // ----- Without a backslash -----

  lemma HoldsAlike(cmp: Comparison, row: Row, f: QueryFilter)
    requires !Escaping(f)
    ensures Holds(Sqlite, cmp, row, f) == Holds(Postgres, cmp, row, f)
  {
    if Contains(f) && f.field in row && !row[f.field].Null? {
      DialectsAgree(ContainsPattern(f.value), CellText(row[f.field]));
    }
  }

  lemma SelectAlike(cmp: Comparison, db: Database, intent: QueryIntent)
    requires intent.entity in db && NoneEscapes(intent.filters)
    ensures Selected(Sqlite, cmp, db, intent) == Selected(Postgres, cmp, db, intent)
  {
    var rows := db[intent.entity];
    forall k | 0 <= k < |rows| ensures AllHold(Sqlite, cmp, rows[k], intent.filters) == AllHold(Postgres, cmp, rows[k], intent.filters) {
      forall i | 0 <= i < |intent.filters|
        ensures Holds(Sqlite, cmp, rows[k], intent.filters[i]) == Holds(Postgres, cmp, rows[k], intent.filters[i])
      {
        HoldsAlike(cmp, rows[k], intent.filters[i]);
      }
    }
    FilterSame(rows, row => AllHold(Sqlite, cmp, row, intent.filters), row => AllHold(Postgres, cmp, row, intent.filters));
  }

  // ----- With one: a row that one dialect selects and the other does not -----

  /** A cell for the column: the samples of all its "contains" values, an 'a' after each. */
  function CellFor(d: Dialect, filters: seq<QueryFilter>, field: string): string {
    if filters == [] then ""
    else
      (if Contains(filters[0]) && filters[0].field == field then Sample(d, filters[0].value) + "a" else "")
      + CellFor(d, filters[1..], field)
  }

  function FieldsOf(filters: seq<QueryFilter>): set<string> {
    set i | 0 <= i < |filters| :: filters[i].field
  }

  function WitnessRow(d: Dialect, filters: seq<QueryFilter>): Row {
    map x | x in FieldsOf(filters) :: Str(CellFor(d, filters, x))
  }

  function AnyComparison(): Comparison {
    (c: Cell, operator: string, value: string) => true
  }

  /** None of the values makes Postgres read a percent sign literally. */
  predicate NoneEscapesPercent(filters: seq<QueryFilter>) {
    forall i | 0 <= i < |filters| :: Contains(filters[i]) ==> !EscapesPercent(filters[i].value)
  }

  /** Every value of the column finds its sample in the cell. */
  lemma {:induction false} CellIsMatched(d: Dialect, filters: seq<QueryFilter>, before: string, field: string, i: nat)
    requires d.Sqlite? || NoneEscapesPercent(filters)
    requires i < |filters| && Contains(filters[i]) && filters[i].field == field
    ensures Matches(d, ContainsPattern(filters[i].value), before + CellFor(d, filters, field))
    decreases |filters|
  {
    var f, rest := filters[0], CellFor(d, filters[1..], field);
    if i == 0 {
      SampleIsContained(d, f.value, before, "a" + rest);
      assert before + Sample(d, f.value) + ("a" + rest) == before + (Sample(d, f.value) + "a" + rest);
    } else {
      var first := if Contains(f) && f.field == field then Sample(d, f.value) + "a" else "";
      assert before + first + rest == before + (first + rest);
      assert forall j | 0 <= j < |filters[1..]| :: filters[1..][j] == filters[j + 1];
      CellIsMatched(d, filters[1..], before + first, field, i - 1);
    }
  }

  lemma WitnessIsSelected(d: Dialect, filters: seq<QueryFilter>)
    requires d.Sqlite? || NoneEscapesPercent(filters)
    ensures AllHold(d, AnyComparison(), WitnessRow(d, filters), filters)
  {
    var row := WitnessRow(d, filters);
    forall i | 0 <= i < |filters| ensures Holds(d, AnyComparison(), row, filters[i]) {
      var f := filters[i];
      assert f.field in FieldsOf(filters);
      if Contains(f) {
        CellIsMatched(d, filters, "", f.field, i);
        assert "" + CellFor(d, filters, f.field) == CellText(row[f.field]);
      }
    }
  }

  lemma {:induction false} CellHasNoPercent(filters: seq<QueryFilter>, field: string)
    ensures '%' !in CellFor(Sqlite, filters, field)
  {
    if filters != [] {
      SampleHasNoPercent(filters[0].value);
      CellHasNoPercent(filters[1..], field);
    }
  }

  /** With no run longer than `longest` in the values, none longer than half of it is in Postgres' cell. */
  lemma {:induction false} CellHalvesRuns(filters: seq<QueryFilter>, field: string, longest: nat)
    requires NoneEscapesPercent(filters)
    requires forall i | 0 <= i < |filters| :: Contains(filters[i]) ==> MaxRun(filters[i].value) <= longest
    ensures MaxRun(CellFor(Postgres, filters, field)) <= longest / 2
  {
    if filters != [] {
      var f, rest := filters[0], CellFor(Postgres, filters[1..], field);
      assert forall j | 0 <= j < |filters[1..]| :: filters[1..][j] == filters[j + 1];
      CellHalvesRuns(filters[1..], field, longest);
      if Contains(f) && f.field == field {
        SampleHalvesRuns(f.value);
        MaxRunOfSum(Sample(Postgres, f.value), 'a', rest);
        assert CellFor(Postgres, filters, field) == Sample(Postgres, f.value) + ['a'] + rest;
      } else {
        assert CellFor(Postgres, filters, field) == "" + rest == rest;
      }
    }
  }

  /** A "contains" filter whose value has a run of backslashes no other exceeds. */
  lemma {:induction false} LongestRun(filters: seq<QueryFilter>) returns (k: nat)
    requires exists i | 0 <= i < |filters| :: Contains(filters[i])
    ensures k < |filters| && Contains(filters[k])
    ensures forall i | 0 <= i < |filters| :: Contains(filters[i]) ==> MaxRun(filters[i].value) <= MaxRun(filters[k].value)
  {
    var last := |filters| - 1;
    var front := filters[..last];
    if i :| 0 <= i < last && Contains(filters[i]) {
      assert Contains(front[i]);
      k := LongestRun(front);
      assert forall j | 0 <= j < last :: filters[j] == front[j];
      if Contains(filters[last]) && MaxRun(filters[last].value) > MaxRun(filters[k].value) {
        k := last;
      }
    } else {
      k := last;
    }
  }

  /** One dialect selects its witness row and the other does not. */
  lemma EscapingTellsThemApart(filters: seq<QueryFilter>) returns (d: Dialect, other: Dialect)
    requires !NoneEscapes(filters)
    ensures d != other
    ensures AllHold(d, AnyComparison(), WitnessRow(d, filters), filters)
    ensures !AllHold(other, AnyComparison(), WitnessRow(d, filters), filters)
  {
    if NoneEscapesPercent(filters) {
      d, other := Postgres, Sqlite;
      var i :| 0 <= i < |filters| && Escaping(filters[i]);
      var k := LongestRun(filters);
      var f := filters[k];
      BackslashMakesRun(filters[i].value);
      CellHalvesRuns(filters, f.field, MaxRun(f.value));
      ShortRunsAreNotContained(f.value, CellFor(Postgres, filters, f.field));
      RefusedBy(other, d, filters, k);
    } else {
      d, other := Sqlite, Postgres;
      var k :| 0 <= k < |filters| && Contains(filters[k]) && EscapesPercent(filters[k].value);
      CellHasNoPercent(filters, filters[k].field);
      NoPercentIsNotContained(filters[k].value, CellFor(Sqlite, filters, filters[k].field));
      RefusedBy(other, d, filters, k);
    }
    WitnessIsSelected(d, filters);
  }

  lemma RefusedBy(d: Dialect, writer: Dialect, filters: seq<QueryFilter>, k: nat)
    requires k < |filters| && Contains(filters[k])
    requires !Matches(d, ContainsPattern(filters[k].value), CellFor(writer, filters, filters[k].field))
    ensures !AllHold(d, AnyComparison(), WitnessRow(writer, filters), filters)
  {
    assert filters[k].field in FieldsOf(filters);
    assert !Holds(d, AnyComparison(), WitnessRow(writer, filters), filters[k]);
  }

  lemma FilterOne(row: Row, keep: Row -> bool)
    ensures Filter([row], keep) == if keep(row) then [row] else []
  {
    assert [row][1..] == [];
  }

  /** One row more or less shows in the answer, whatever the aggregate. */
  lemma OneRowShows(d: Dialect, other: Dialect, cmp: Comparison, db: Database, intent: QueryIntent, row: Row)
    requires intent.entity in db && db[intent.entity] == [row]
    requires AllHold(d, cmp, row, intent.filters) && !AllHold(other, cmp, row, intent.filters)
    ensures Meaning(d, cmp, db, intent) != Meaning(other, cmp, db, intent)
  {
    FilterOne(row, r => AllHold(d, cmp, r, intent.filters));
    FilterOne(row, r => AllHold(other, cmp, r, intent.filters));
    if intent.aggregate == "count" {
      ItoaIsDecimal(0);
      ItoaIsDecimal(1);
      assert [[Itoa(1)]][0][0] != [[Itoa(0)]][0][0];
    } else if intent.aggregate == "group_by" {
      assert KeyOf(row, intent.groupBy) in GroupSizes([row], intent.groupBy);
    } else {
      var limit := if intent.limit <= 0 then DEFAULT_LIMIT else intent.limit;
      var none: seq<Row> := [];
      assert Take([row], limit) == [row] && Take(none, limit) == none;
      assert |Project([row], EntityColumns(intent.entity))| == 1 && |Project(none, EntityColumns(intent.entity))| == 0;
    }
  }

  ghost predicate SameMeaning(cmp: Comparison, db: Database, intent: QueryIntent)
    requires intent.entity in db
  {
    Meaning(Sqlite, cmp, db, intent) == Meaning(Postgres, cmp, db, intent)
  }

  /** The two forms answer an intent alike, on every database, exactly when no "contains" value holds a backslash. */
  lemma DialectsSelectTheSame(intent: QueryIntent)
    ensures (forall cmp: Comparison, db: Database | intent.entity in db :: SameMeaning(cmp, db, intent)) <==> NoneEscapes(intent.filters)
  {
    if NoneEscapes(intent.filters) {
      forall cmp: Comparison, db: Database | intent.entity in db ensures SameMeaning(cmp, db, intent) {
        SelectAlike(cmp, db, intent);
      }
    } else {
      var d, other := EscapingTellsThemApart(intent.filters);
      var row := WitnessRow(d, intent.filters);
      var db := map[intent.entity := [row]];
      OneRowShows(d, other, AnyComparison(), db, intent, row);
      assert !SameMeaning(AnyComparison(), db, intent);
    }
  }
}
