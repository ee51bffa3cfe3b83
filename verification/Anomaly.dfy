/** Login attempts and how broadly one IP's failures are spread, in memory and in SQLite. */
module Anomaly {
  import opened Wrappers
  import opened Text
  import opened Timestamps

  /** One observation; an empty userId names no account. */
  datatype Attempt = Attempt(userId: string, ip: string, failure: bool, createdAt: Instant)

  datatype TargetCounts = TargetCounts(distinctAccounts: nat, unknownTargetFailures: nat)
  {
    function Breadth(): nat {
      distinctAccounts + unknownTargetFailures
    }
  }

  // ----- Failures as a list of targets: the account each was aimed at, if any -----

  type Targets = seq<Option<string>>

  function NullString(s: string): Option<string> {
    if s == "" then None else Some(s)
  }

  function Known(targets: Targets): set<string> {
    set t | t in targets && t.Some? :: t.value
  }

  function CountOf(targets: Targets, t: Option<string>): nat {
    multiset(targets)[t]
  }

  function CountsOf(targets: Targets): TargetCounts {
    TargetCounts(|Known(targets)|, CountOf(targets, None))
  }

  predicate Counted(a: Attempt, ip: string, since: Instant) {
    a.failure && a.ip == ip && a.createdAt >= since
  }

  /** The targets of the IP's failures at or after `since`; no IP, no evidence. */
  function TargetsOf(attempts: seq<Attempt>, ip: string, since: Instant): Targets {
    if attempts == [] || ip == "" then []
    else
      var (before, a) := (attempts[..|attempts| - 1], attempts[|attempts| - 1]);
      TargetsOf(before, ip, since) + if Counted(a, ip, since) then [NullString(a.userId)] else []
  }

  lemma KnownOfSum(targets: Targets, t: Option<string>)
    ensures Known(targets + [t]) == Known(targets) + if t.Some? then {t.value} else {}
  {
    assert (targets + [t])[|targets|] == t;
    forall u | u in Known(targets) ensures u in Known(targets + [t]) {
      var k :| 0 <= k < |targets| && targets[k] == Some(u);
      assert (targets + [t])[k] == Some(u);
    }
  }

  lemma CountOfSum(targets: Targets, t: Option<string>, u: Option<string>)
    ensures CountOf(targets + [t], u) == CountOf(targets, u) + if u == t then 1 else 0
  {
  }

  /** One more failure adds to the unknown targets, or to the accounts if its account is new. */
  lemma CountsOfSum(targets: Targets, t: Option<string>)
    ensures var (was, now) := (CountsOf(targets), CountsOf(targets + [t]));
      now == if t.None? then was.(unknownTargetFailures := was.unknownTargetFailures + 1)
             else if t.value in Known(targets) then was
             else was.(distinctAccounts := was.distinctAccounts + 1)
  {
    KnownOfSum(targets, t);
    CountOfSum(targets, t, None);
    if t.Some? && t.value in Known(targets) {
      assert Known(targets) + {t.value} == Known(targets);
    }
  }

  lemma TargetsOfNext(attempts: seq<Attempt>, k: nat, ip: string, since: Instant)
    requires k < |attempts| && ip != ""
    ensures TargetsOf(attempts[..k + 1], ip, since)
         == TargetsOf(attempts[..k], ip, since) + if Counted(attempts[k], ip, since) then [NullString(attempts[k].userId)] else []
  {
    assert attempts[..k + 1][..k] == attempts[..k];
  }

  /** Attempt i failed, came from this IP, and did so no earlier than `since`. */
  predicate FailedAt(attempts: seq<Attempt>, i: int, ip: string, since: Instant) {
    0 <= i < |attempts| && attempts[i].failure && attempts[i].ip == ip && since <= attempts[i].createdAt
  }

  /** The accounts failed against. */
  function FailedAccounts(attempts: seq<Attempt>, ip: string, since: Instant): set<string> {
    set i | 0 <= i < |attempts| && FailedAt(attempts, i, ip, since) && attempts[i].userId != "" :: attempts[i].userId
  }

  /** The positions of the failures, and of those that named no account. */
  function Failures(attempts: seq<Attempt>, ip: string, since: Instant): set<int> {
    set i | 0 <= i < |attempts| && FailedAt(attempts, i, ip, since)
  }

  function UnknownFailures(attempts: seq<Attempt>, ip: string, since: Instant): set<int> {
    set i | 0 <= i < |attempts| && FailedAt(attempts, i, ip, since) && attempts[i].userId == ""
  }

  lemma FailuresOfSum(before: seq<Attempt>, a: Attempt, ip: string, since: Instant)
    ensures var (now, counted) := (before + [a], a.failure && a.ip == ip && since <= a.createdAt);
      && Failures(now, ip, since) == Failures(before, ip, since) + (if counted then {|before|} else {})
      && UnknownFailures(now, ip, since) == UnknownFailures(before, ip, since) + (if counted && a.userId == "" then {|before|} else {})
  {
    assert forall i | 0 <= i < |before| :: FailedAt(before + [a], i, ip, since) == FailedAt(before, i, ip, since);
  }

  lemma AccountsOfSum(before: seq<Attempt>, a: Attempt, ip: string, since: Instant)
    ensures FailedAccounts(before + [a], ip, since)
         == FailedAccounts(before, ip, since)
            + (if a.failure && a.ip == ip && since <= a.createdAt && a.userId != "" then {a.userId} else {})
  {
    var now := before + [a];
    assert forall i | 0 <= i < |before| :: now[i] == before[i] && FailedAt(now, i, ip, since) == FailedAt(before, i, ip, since);
    forall u | u in FailedAccounts(before, ip, since) ensures u in FailedAccounts(now, ip, since) {
      var i :| 0 <= i < |before| && FailedAt(before, i, ip, since) && before[i].userId == u;
      assert FailedAt(now, i, ip, since);
    }
    if FailedAt(now, |before|, ip, since) && a.userId != "" {
      assert now[|before|] == a;
    }
  }

  /** What the stores count: failures, the accounts among them, and those that named none. */
  lemma {:induction false} CountsAre(attempts: seq<Attempt>, ip: string, since: Instant)
    requires ip != ""
    ensures var targets := TargetsOf(attempts, ip, since);
      && |targets| == |Failures(attempts, ip, since)|
      && Known(targets) == FailedAccounts(attempts, ip, since)
      && CountsOf(targets).distinctAccounts == |FailedAccounts(attempts, ip, since)|
      && CountsOf(targets).unknownTargetFailures == |UnknownFailures(attempts, ip, since)|
  {
    hide Failures, UnknownFailures, FailedAccounts, Known, CountOf;
    if attempts == [] {
      NothingCounted(ip, since);
    } else {
      var before, a := attempts[..|attempts| - 1], attempts[|attempts| - 1];
      assert attempts == before + [a];
      CountsAre(before, ip, since);
      FailuresOfSum(before, a, ip, since);
      AccountsOfSum(before, a, ip, since);
      NotYetCounted(before, ip, since);
      assert TargetsOf(before, ip, since) + [] == TargetsOf(before, ip, since);
      assert FailedAccounts(before, ip, since) + {} == FailedAccounts(before, ip, since);
      KnownOfSum(TargetsOf(before, ip, since), NullString(a.userId));
      CountOfSum(TargetsOf(before, ip, since), NullString(a.userId), None);
    }
  }

  lemma NothingCounted(ip: string, since: Instant)
    ensures Failures([], ip, since) == {} && UnknownFailures([], ip, since) == {} && FailedAccounts([], ip, since) == {}
    ensures Known([]) == {} && CountOf([], None) == 0
  {
  }

  lemma NotYetCounted(attempts: seq<Attempt>, ip: string, since: Instant)
    ensures |attempts| !in Failures(attempts, ip, since) && |attempts| !in UnknownFailures(attempts, ip, since)
  {
  }

  class MemoryAnomalyStore {
    var attempts: seq<Attempt>

    constructor ()
      ensures attempts == []
    {
      attempts := [];
    }

    method RecordAttempt(a: Attempt, now: Instant)
      modifies this
      ensures attempts == old(attempts) + [a.(createdAt := now)]
    {
      attempts := attempts + [a.(createdAt := now)];
    }

    method CountFailuresForIP(ip: string, since: Instant) returns (count: nat)
      ensures count == |TargetsOf(attempts, ip, since)|
    {
      if ip == "" {
        return 0;
      }
      count := 0;
      for k := 0 to |attempts|
        invariant count == |TargetsOf(attempts[..k], ip, since)|
      {
        var a := attempts[k];
        TargetsOfNext(attempts, k, ip, since);
        if a.failure && a.createdAt >= since && a.ip == ip {
          count := count + 1;
        }
      }
      assert attempts[..|attempts|] == attempts;
    }

    method CountTargetsForIP(ip: string, since: Instant) returns (counts: TargetCounts)
      ensures counts == CountsOf(TargetsOf(attempts, ip, since))
    {
      if ip == "" {
        return TargetCounts(0, 0);
      }
      counts := TargetCounts(0, 0);
      var seen: set<string> := {};
      for k := 0 to |attempts|
        invariant Tallied(TargetsOf(attempts[..k], ip, since), seen, counts)
      {
        var a := attempts[k];
        TargetsOfNext(attempts, k, ip, since);
        if a.failure && a.ip == ip && a.createdAt >= since {
          TallyOneMore(TargetsOf(attempts[..k], ip, since), seen, counts, a.userId);
          if a.userId == "" {
            counts := counts.(unknownTargetFailures := counts.unknownTargetFailures + 1);
          } else if a.userId !in seen {
            seen := seen + {a.userId};
            counts := counts.(distinctAccounts := counts.distinctAccounts + 1);
          }
        } else {
          assert TargetsOf(attempts[..k], ip, since) + [] == TargetsOf(attempts[..k], ip, since);
        }
      }
      assert attempts[..|attempts|] == attempts;
    }
  }

  ghost predicate Tallied(targets: Targets, seen: set<string>, counts: TargetCounts) {
    seen == Known(targets) && counts == CountsOf(targets)
  }

  lemma TallyOneMore(targets: Targets, seen: set<string>, counts: TargetCounts, userId: string)
    requires Tallied(targets, seen, counts)
    ensures var now := targets + [NullString(userId)];
      if userId == "" then Tallied(now, seen, counts.(unknownTargetFailures := counts.unknownTargetFailures + 1))
      else if userId in seen then Tallied(now, seen, counts)
      else Tallied(now, seen + {userId}, counts.(distinctAccounts := counts.distinctAccounts + 1))
  {
    KnownOfSum(targets, NullString(userId));
    CountsOfSum(targets, NullString(userId));
    if userId == "" {
      assert seen + {} == seen;
    } else if userId in seen {
      assert seen + {userId} == seen;
    }
  }

  // ----- SQLite -----

  /** A row of login_attempts: user_id is NULL for no account, created_at is text. */
  datatype Row = Row(userId: Option<string>, ip: string, failure: bool, createdAt: string)

  function Stored(a: Attempt): Row {
    Row(NullString(a.userId), a.ip, a.failure, FormatTime(a.createdAt))
  }

  function StoredAll(attempts: seq<Attempt>): seq<Row> {
    seq(|attempts|, i requires 0 <= i < |attempts| => Stored(attempts[i]))
  }

  /** WHERE ip = ? AND outcome = 'failure' AND created_at >= ?, compared as text. */
  predicate RowCounted(r: Row, ip: string, since: string) {
    r.failure && r.ip == ip && !Before(r.createdAt, since)
  }

  function RowTargets(rows: seq<Row>, ip: string, since: string): Targets {
    if rows == [] || ip == "" then []
    else
      var (before, r) := (rows[..|rows| - 1], rows[|rows| - 1]);
      RowTargets(before, ip, since) + if RowCounted(r, ip, since) then [r.userId] else []
  }

  /** The rows of the WHERE clause. */
  function Matching(rows: seq<Row>, ip: string, since: string): seq<Row> {
    if rows == [] then []
    else
      var (before, r) := (rows[..|rows| - 1], rows[|rows| - 1]);
      Matching(before, ip, since) + if RowCounted(r, ip, since) then [r] else []
  }

  /** COUNT(DISTINCT user_id), which passes over NULL. */
  function CountDistinctUsers(rows: seq<Row>): nat {
    |set i | 0 <= i < |rows| && rows[i].userId.Some? :: rows[i].userId.value|
  }

  /** COUNT(CASE WHEN user_id IS NULL THEN 1 END). */
  function CountNullUsers(rows: seq<Row>): nat {
    if rows == [] then 0
    else CountNullUsers(rows[..|rows| - 1]) + if rows[|rows| - 1].userId.None? then 1 else 0
  }

  class SqliteAnomalyStore {
    var rows: seq<Row>
    ghost var attempts: seq<Attempt>

    /** The rows are the attempts as they are written. */
    ghost predicate Valid()
      reads this
    {
      rows == StoredAll(attempts)
    }

    constructor ()
      ensures Valid() && attempts == []
    {
      rows, attempts := [], [];
    }

    method RecordAttempt(a: Attempt, now: Instant)
      requires Valid()
      modifies this
      ensures Valid() && attempts == old(attempts) + [a.(createdAt := now)]
    {
      rows := rows + [Row(NullString(a.userId), a.ip, a.failure, FormatTime(now))];
      attempts := attempts + [a.(createdAt := now)];
    }

    /** The count is the one the in-memory store gives on the same attempts. */
    method CountFailuresForIP(ip: string, since: Instant) returns (count: nat)
      requires Valid()
      ensures AllInYears(attempts) && InYears(since) ==> count == |TargetsOf(attempts, ip, since)|
    {
      if ip == "" {
        return 0;
      }
      var found := Matching(rows, ip, FormatTime(since));
      count := |found|;
      MatchingTargets(rows, ip, FormatTime(since));
      if AllInYears(attempts) && InYears(since) {
        SqliteWindowIsMemoryWindow(attempts, ip, since);
      }
    }

    /** So are these two. */
    method CountTargetsForIP(ip: string, since: Instant) returns (counts: TargetCounts)
      requires Valid()
      ensures AllInYears(attempts) && InYears(since) ==> counts == CountsOf(TargetsOf(attempts, ip, since))
    {
      if ip == "" {
        return TargetCounts(0, 0);
      }
      var found := Matching(rows, ip, FormatTime(since));
      counts := TargetCounts(CountDistinctUsers(found), CountNullUsers(found));
      MatchingTargets(rows, ip, FormatTime(since));
      CountedAsTargets(found);
      if AllInYears(attempts) && InYears(since) {
        SqliteWindowIsMemoryWindow(attempts, ip, since);
      }
    }

    /** UPDATE login_attempts SET user_id = NULL WHERE user_id = ?, the attempts' part of deleting a user. */
    method ForgetUser(user: string)
      requires Valid()
      modifies this
      ensures Valid() && attempts == Anonymised(old(attempts), user) && rows == Forgotten(old(rows), user)
    {
      ForgottenIsAnonymised(attempts, user);
      rows := seq(|rows|, i requires 0 <= i < |rows| reads this => if rows[i].userId == Some(user) then rows[i].(userId := None) else rows[i]);
      attempts := Anonymised(attempts, user);
    }
  }

  function Forgotten(rows: seq<Row>, user: string): seq<Row> {
    seq(|rows|, i requires 0 <= i < |rows| => if rows[i].userId == Some(user) then rows[i].(userId := None) else rows[i])
  }

  /** The attempts with one account's name taken off them. */
  function Anonymised(attempts: seq<Attempt>, user: string): seq<Attempt> {
    seq(|attempts|, i requires 0 <= i < |attempts| => if attempts[i].userId == user then attempts[i].(userId := "") else attempts[i])
  }

  lemma ForgottenIsAnonymised(attempts: seq<Attempt>, user: string)
    ensures Forgotten(StoredAll(attempts), user) == StoredAll(Anonymised(attempts, user))
  {
  }

  function UserIds(rows: seq<Row>): Targets {
    seq(|rows|, i requires 0 <= i < |rows| => rows[i].userId)
  }

  lemma {:induction false} MatchingTargets(rows: seq<Row>, ip: string, since: string)
    requires ip != ""
    ensures UserIds(Matching(rows, ip, since)) == RowTargets(rows, ip, since)
  {
    if rows != [] {
      MatchingTargets(rows[..|rows| - 1], ip, since);
    }
  }

  /** The two COUNT expressions over some rows are the counts of their accounts. */
  lemma {:induction false} CountedAsTargets(rows: seq<Row>)
    ensures CountsOf(UserIds(rows)) == TargetCounts(CountDistinctUsers(rows), CountNullUsers(rows))
  {
    assert Known(UserIds(rows)) == set i | 0 <= i < |rows| && rows[i].userId.Some? :: rows[i].userId.value by {
      forall i | 0 <= i < |rows| && rows[i].userId.Some? ensures rows[i].userId.value in Known(UserIds(rows)) {
        assert UserIds(rows)[i] == rows[i].userId;
      }
    }
    if rows != [] {
      var before := rows[..|rows| - 1];
      CountedAsTargets(before);
      CountOfSum(UserIds(before), rows[|rows| - 1].userId, None);
      assert UserIds(rows) == UserIds(before) + [rows[|rows| - 1].userId];
    }
  }

  // ----- Properties -----

  /** Every attempt's time is one four digits of year can write. */
  predicate AllInYears(attempts: seq<Attempt>) {
    forall i | 0 <= i < |attempts| :: InYears(attempts[i].createdAt)
  }

  /** The text-compared window holds the failures the instant-compared window holds, so every count agrees. */
  lemma {:induction false} SqliteWindowIsMemoryWindow(attempts: seq<Attempt>, ip: string, since: Instant)
    requires AllInYears(attempts) && InYears(since)
    ensures RowTargets(StoredAll(attempts), ip, FormatTime(since)) == TargetsOf(attempts, ip, since)
  {
    if attempts != [] && ip != "" {
      var before, a := attempts[..|attempts| - 1], attempts[|attempts| - 1];
      SqliteWindowIsMemoryWindow(before, ip, since);
      assert StoredAll(attempts)[..|attempts| - 1] == StoredAll(before);
      StringOrderIsTimeOrder(a.createdAt, since);
    }
  }

  /** Breadth never exceeds the number of failures. */
  lemma {:induction false} BreadthAtMostFailures(targets: Targets)
    ensures CountsOf(targets).Breadth() <= |targets|
  {
    if targets != [] {
      var before, t := targets[..|targets| - 1], targets[|targets| - 1];
      BreadthAtMostFailures(before);
      assert targets == before + [t];
      CountsOfSum(before, t);
    }
  }

  function Erase(targets: Targets, user: string): Targets {
    seq(|targets|, i requires 0 <= i < |targets| => if targets[i] == Some(user) then None else targets[i])
  }

  lemma {:induction false} ForgettingErases(rows: seq<Row>, ip: string, since: string, user: string)
    ensures RowTargets(Forgotten(rows, user), ip, since) == Erase(RowTargets(rows, ip, since), user)
  {
    if rows != [] && ip != "" {
      var before, r := rows[..|rows| - 1], rows[|rows| - 1];
      ForgettingErases(before, ip, since, user);
      assert Forgotten(rows, user)[..|rows| - 1] == Forgotten(before, user);
    }
  }

  lemma {:induction false} ErasedCounts(targets: Targets, user: string)
    ensures Known(Erase(targets, user)) == Known(targets) - {user}
    ensures CountOf(Erase(targets, user), None) == CountOf(targets, None) + CountOf(targets, Some(user))
    ensures user in Known(targets) <==> CountOf(targets, Some(user)) > 0
  {
    if targets != [] {
      var before, t := targets[..|targets| - 1], targets[|targets| - 1];
      ErasedCounts(before, user);
      assert targets == before + [t];
      OneMoreErased(before, t, user);
    }
  }

  lemma OneMoreErased(before: Targets, t: Option<string>, user: string)
    requires Known(Erase(before, user)) == Known(before) - {user}
    requires CountOf(Erase(before, user), None) == CountOf(before, None) + CountOf(before, Some(user))
    requires user in Known(before) <==> CountOf(before, Some(user)) > 0
    ensures Known(Erase(before + [t], user)) == Known(before + [t]) - {user}
    ensures CountOf(Erase(before + [t], user), None) == CountOf(before + [t], None) + CountOf(before + [t], Some(user))
    ensures user in Known(before + [t]) <==> CountOf(before + [t], Some(user)) > 0
  {
    var erased := if t == Some(user) then None else t;
    assert Erase(before + [t], user) == Erase(before, user) + [erased];
    KnownOfSum(before, t);
    KnownOfSum(Erase(before, user), erased);
    CountOfSum(before, t, None);
    CountOfSum(before, t, Some(user));
    CountOfSum(Erase(before, user), erased, None);
  }

  /** Deleting a user keeps every IP's failure count; its breadth grows by the user's failures there, less one. */
  lemma DeletionNeverLowersBreadth(rows: seq<Row>, ip: string, since: string, user: string)
    ensures var (was, now) := (RowTargets(rows, ip, since), RowTargets(Forgotten(rows, user), ip, since));
      var failures := CountOf(was, Some(user));
      && |now| == |was|
      && CountsOf(now).Breadth() == CountsOf(was).Breadth() + if failures > 0 then failures - 1 else 0
  {
    var was := RowTargets(rows, ip, since);
    ForgettingErases(rows, ip, since, user);
    ErasedCounts(was, user);
    if user in Known(was) {
      assert |Known(was) - {user}| == |Known(was)| - 1;
    } else {
      assert Known(was) - {user} == Known(was);
    }
  }
}
