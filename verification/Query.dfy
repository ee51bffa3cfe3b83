/** Query intents and the allowlists they are checked against. */
module Query {
  import opened Wrappers

  datatype QueryFilter = QueryFilter(field: string, operator: string, value: string)

  datatype QueryIntent = QueryIntent(
    entity: string,
    filters: seq<QueryFilter>,
    aggregate: string,
    groupBy: string,
    limit: int)

  const DEFAULT_LIMIT := 50
  const MAX_LIMIT := 500

  const ENTITIES: set<string> := {"users", "sessions", "audit_events"}
  const OPERATORS: set<string> := {"=", ">", "<", "contains"}
  const AGGREGATES: set<string> := {"", "count", "group_by"}

  /** The columns of an entity, in the order SELECT lists them; the fields a query may name are the same. */
  function EntityColumns(entity: string): seq<string> {
    if entity == "users" then ["id", "email", "failed_attempts", "locked_until", "created_at"]
    else if entity == "sessions" then ["id", "user_id", "ip", "user_agent", "created_at", "revoked_at"]
    else if entity == "audit_events" then ["id", "type", "user_id", "ip", "created_at"]
    else []
  }

  predicate AllowedField(entity: string, field: string) {
    field in EntityColumns(entity)
  }

  predicate AllowedFilter(entity: string, f: QueryFilter) {
    AllowedField(entity, f.field) && f.operator in OPERATORS
  }

  datatype QueryError = UnsafeIntent | MissingOwner | EntityNotAvailable

  /** validateIntent: the checks in the source's order, the filters in a loop. */
  method ValidateIntent(intent: QueryIntent) returns (r: Result<(), QueryError>)
    ensures r.Ok? <==> ValidIntent(intent)
    ensures r.Err? ==> r.error == UnsafeIntent
  {
    if intent.entity !in ENTITIES || intent.aggregate !in AGGREGATES {
      return Err(UnsafeIntent);
    }
    if intent.aggregate == "group_by" && !AllowedField(intent.entity, intent.groupBy) {
      return Err(UnsafeIntent);
    }
    for k := 0 to |intent.filters|
      invariant forall j | 0 <= j < k :: AllowedFilter(intent.entity, intent.filters[j])
    {
      if !AllowedFilter(intent.entity, intent.filters[k]) {
        return Err(UnsafeIntent);
      }
    }
    if intent.limit < 0 || intent.limit > MAX_LIMIT {
      return Err(UnsafeIntent);
    }
    return Ok(());
  }

  predicate AllFiltersAllowed(entity: string, filters: seq<QueryFilter>) {
    forall j | 0 <= j < |filters| :: AllowedFilter(entity, filters[j])
  }

  predicate ValidIntent(intent: QueryIntent) {
    && intent.entity in ENTITIES
    && intent.aggregate in AGGREGATES
    && (intent.aggregate == "group_by" ==> AllowedField(intent.entity, intent.groupBy))
    && AllFiltersAllowed(intent.entity, intent.filters)
    && 0 <= intent.limit <= MAX_LIMIT
  }

  /** Every name that can reach SQL text is one word without commas. */
  predicate Word(s: string) {
    s != "" && ' ' !in s && s[|s| - 1] != ','
  }

  lemma AllowedNamesAreWords(entity: string)
    requires entity in ENTITIES
    ensures Word(entity)
    ensures forall i | 0 <= i < |EntityColumns(entity)| :: Word(EntityColumns(entity)[i])
    ensures EntityColumns(entity) != []
  {
    if entity == "users" {
    } else if entity == "sessions" {
    }
  }
}
