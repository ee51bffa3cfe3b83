/** Credential-stuffing detection, and the suppression of repeats within a cooldown. */
module Stuffing {
  import opened Wrappers
  import opened Anomaly
  import opened Audit

  const STUFFING := CredentialStuffingDetected
  const SCAN_LIMIT := 50

  datatype Signal = AccountSpray | UnknownAccountSpray

  datatype Thresholds = Thresholds(window: int, targetAccounts: int, cooldown: int)
  {
    function Evaluate(obs: TargetCounts): seq<Signal> {
      if targetAccounts <= 0 || obs.Breadth() < targetAccounts then []
      else [AccountSpray] + if obs.unknownTargetFailures > obs.distinctAccounts then [UnknownAccountSpray] else []
    }

    predicate Off() {
      targetAccounts <= 0 || window <= 0
    }
  }

  /** recentlyFlaggedForStuffing: one of the newest stuffing events is this IP's and not before the cutoff. */
  predicate RecentlyFlagged(events: seq<AuditEvent>, cooldown: int, ip: string, now: Instant) {
    cooldown > 0 && AnyFlags(Newest(events, STUFFING, SCAN_LIMIT), ip, now - cooldown)
  }

  predicate AnyFlags(found: seq<AuditEvent>, ip: string, cutoff: Instant) {
    exists k :: 0 <= k < |found| && Flags(found[k], ip, cutoff)
  }

  predicate Flags(e: AuditEvent, ip: string, cutoff: Instant) {
    e.ip == ip && e.createdAt >= cutoff
  }

  /** The clock readings one detection makes, in order. */
  datatype Clock = Clock(counting: Instant, cutoff: Instant, recording: Instant)

  predicate Ticks(c: Clock) {
    c.counting <= c.cutoff <= c.recording
  }

  /** What detection appends to the log, given the breadth it observed. */
  function Detected(events: seq<AuditEvent>, t: Thresholds, obs: TargetCounts, userId: string, ip: string, c: Clock): seq<AuditEvent> {
    if ip == "" || t.Off() || t.Evaluate(obs) == [] || RecentlyFlagged(events, t.cooldown, ip, c.cutoff) then events
    else events + [AuditEvent(STUFFING, userId, ip, c.recording)]
  }

  method RecentlyFlaggedForStuffing(audit: AuditStore, cooldown: int, ip: string, now: Instant) returns (flagged: bool)
    ensures flagged == RecentlyFlagged(audit.events, cooldown, ip, now)
  {
    if cooldown <= 0 {
      return false;
    }
    var events := audit.SearchByType(STUFFING, SCAN_LIMIT);
    var cutoff := now - cooldown;
    for k := 0 to |events|
      invariant forall j | 0 <= j < k :: !Flags(events[j], ip, cutoff)
    {
      if events[k].ip == ip && events[k].createdAt >= cutoff {
        assert Flags(events[k], ip, cutoff);
        return true;
      }
    }
    return false;
  }

  method DetectCredentialStuffing(anomalies: MemoryAnomalyStore, audit: AuditStore, t: Thresholds, userId: string, ip: string, c: Clock)
    modifies audit
    ensures audit.events == Detected(old(audit.events), t, CountsOf(TargetsOf(anomalies.attempts, ip, c.counting - t.window)), userId, ip, c)
    ensures audit.events == old(audit.events) + if Due(anomalies.attempts, old(audit.events), t, ip, c) then [AuditEvent(CredentialStuffingDetected, userId, ip, c.recording)] else []
  {
    hide Due, CountsOf, TargetsOf;
    DetectedIffDue(anomalies.attempts, audit.events, t, userId, ip, c);
    if ip == "" || t.targetAccounts <= 0 || t.window <= 0 {
      return;
    }
    var obs := anomalies.CountTargetsForIP(ip, c.counting - t.window);
    JudgeObservations(audit, t, obs, userId, ip, c);
  }

  method JudgeObservations(audit: AuditStore, t: Thresholds, obs: TargetCounts, userId: string, ip: string, c: Clock)
    requires ip != "" && !t.Off()
    modifies audit
    ensures audit.events == Detected(old(audit.events), t, obs, userId, ip, c)
  {
    var signals := t.Evaluate(obs);
    if |signals| == 0 {
      return;
    }
    var flagged := RecentlyFlaggedForStuffing(audit, t.cooldown, ip, c.cutoff);
    if flagged {
      return;
    }
    audit.Record(AuditEvent(STUFFING, userId, ip, 0), c.recording);
  }

  /** Suppressed exactly when an event of this IP is recent enough and fewer than 50 stuffing events came after it. */
  lemma SuppressedIff(events: seq<AuditEvent>, cooldown: int, ip: string, now: Instant)
    ensures RecentlyFlagged(events, cooldown, ip, now)
      <==> cooldown > 0 && AnyStillFlags(events, ip, now - cooldown)
  {
    var cutoff := now - cooldown;
    var flags := (e: AuditEvent) => Flags(e, ip, cutoff);
    NewestIs(events, STUFFING, SCAN_LIMIT, flags);
    assert AnyFlags(Newest(events, STUFFING, SCAN_LIMIT), ip, cutoff) <==> FoundIn(Newest(events, STUFFING, SCAN_LIMIT), flags);
    assert forall i :: WantedAt(events, STUFFING, SCAN_LIMIT, flags, i) <==> StillFlags(events, ip, cutoff, i);
  }

  ghost predicate AnyStillFlags(events: seq<AuditEvent>, ip: string, cutoff: Instant) {
    exists i :: StillFlags(events, ip, cutoff, i)
  }

  /** Position i holds a stuffing event of the IP, not before the cutoff, with fewer than 50 stuffing events after it. */
  predicate StillFlags(events: seq<AuditEvent>, ip: string, cutoff: Instant, i: int) {
    0 <= i < |events| && events[i].kind == STUFFING && Flags(events[i], ip, cutoff) && Followers(events, STUFFING, i) < SCAN_LIMIT
  }

  /**
   An event is due: detection is on, the IP's failures of the window name enough targets, accounts and unknown
   ones together, and no event of the IP within the cooldown is among the newest fifty of its type.
   */
  ghost predicate Due(attempts: seq<Attempt>, events: seq<AuditEvent>, t: Thresholds, ip: string, c: Clock) {
    var since := c.counting - t.window;
    && ip != "" && t.targetAccounts > 0 && t.window > 0
    && |FailedAccounts(attempts, ip, since)| + |UnknownFailures(attempts, ip, since)| >= t.targetAccounts
    && !(t.cooldown > 0 && RecentlyRecorded(events, ip, c.cutoff - t.cooldown))
  }

  ghost predicate RecentlyRecorded(events: seq<AuditEvent>, ip: string, cutoff: Instant) {
    exists i :: RecentAt(events, ip, cutoff, i)
  }

  predicate RecentAt(events: seq<AuditEvent>, ip: string, cutoff: Instant, i: int) {
    && 0 <= i < |events| && events[i].kind == CredentialStuffingDetected && events[i].ip == ip && cutoff <= events[i].createdAt
    && |Behind(events, CredentialStuffingDetected, i)| < 50
  }

  /** Detection records an event exactly when one is due. */
  lemma DetectedIffDue(attempts: seq<Attempt>, events: seq<AuditEvent>, t: Thresholds, userId: string, ip: string, c: Clock)
    ensures Detected(events, t, CountsOf(TargetsOf(attempts, ip, c.counting - t.window)), userId, ip, c)
      == events + if Due(attempts, events, t, ip, c) then [AuditEvent(CredentialStuffingDetected, userId, ip, c.recording)] else []
  {
    hide CountsOf, TargetsOf, FailedAccounts, UnknownFailures, RecentlyFlagged, AnyStillFlags, RecentlyRecorded;
    if ip != "" {
      CountsAre(attempts, ip, c.counting - t.window);
    }
    SuppressedIff(events, t.cooldown, ip, c.cutoff);
    StillFlagsIsRecent(events, ip, c.cutoff - t.cooldown);
  }

  lemma StillFlagsIsRecent(events: seq<AuditEvent>, ip: string, cutoff: Instant)
    ensures AnyStillFlags(events, ip, cutoff) <==> RecentlyRecorded(events, ip, cutoff)
  {
    hide Followers, Behind;
    forall i ensures StillFlags(events, ip, cutoff, i) <==> RecentAt(events, ip, cutoff, i) {
      if 0 <= i < |events| {
        FollowersAre(events, CredentialStuffingDetected, i);
      }
    }
  }

  /** An account spray is what detection is about; it is mostly unknown when the unknown targets outnumber the accounts. */
  lemma SignalsAre(t: Thresholds, obs: TargetCounts)
    ensures AccountSpray in t.Evaluate(obs) <==> 0 < t.targetAccounts <= obs.distinctAccounts + obs.unknownTargetFailures
    ensures UnknownAccountSpray in t.Evaluate(obs) <==> AccountSpray in t.Evaluate(obs) && obs.unknownTargetFailures > obs.distinctAccounts
    ensures NoDuplicates(t.Evaluate(obs))
  {
  }

  // ----- Runs -----

  datatype Step =
    | Detect(obs: TargetCounts, userId: string, ip: string, clock: Clock)
    | OtherEvent(event: AuditEvent)

  predicate Allowed(s: Step) {
    match s
    case Detect(_, _, _, c) => Ticks(c)
    case OtherEvent(e) => e.kind != STUFFING
  }

  function Run(t: Thresholds, steps: seq<Step>): seq<AuditEvent> {
    if steps == [] then []
    else
      var before := Run(t, steps[..|steps| - 1]);
      match steps[|steps| - 1]
      case Detect(obs, userId, ip, c) => Detected(before, t, obs, userId, ip, c)
      case OtherEvent(e) => before + [e]
  }

  /** Stuffing events between positions i and j, when j holds one itself. */
  function Between(events: seq<AuditEvent>, i: nat, j: nat): int
    requires i < j < |events|
  {
    Followers(events, STUFFING, i) - Followers(events, STUFFING, j) - 1
  }

  ghost predicate Spaced(events: seq<AuditEvent>, cooldown: int) {
    forall i, j | 0 <= i < j < |events| :: PairSpaced(events, i, j, cooldown)
  }

  predicate PairSpaced(events: seq<AuditEvent>, i: nat, j: nat, cooldown: int)
    requires i < j < |events|
  {
    SameSource(events[i], events[j]) ==>
      events[j].createdAt - events[i].createdAt > cooldown || Between(events, i, j) >= 50
  }

  predicate SameSource(a: AuditEvent, b: AuditEvent) {
    a.kind == STUFFING && b.kind == STUFFING && a.ip == b.ip
  }

  /** Event i would be spaced from `e`, appended now. */
  predicate ReadyFor(events: seq<AuditEvent>, i: nat, e: AuditEvent, cooldown: int)
    requires i < |events|
  {
    SameSource(events[i], e) ==> e.createdAt - events[i].createdAt > cooldown || Followers(events, STUFFING, i) >= SCAN_LIMIT
  }

  lemma SpacingSurvivesAppend(events: seq<AuditEvent>, e: AuditEvent, cooldown: int)
    requires Spaced(events, cooldown)
    requires forall i | 0 <= i < |events| :: ReadyFor(events, i, e, cooldown)
    ensures Spaced(events + [e], cooldown)
  {
    forall i, j | 0 <= i < j <= |events| ensures PairSpaced(events + [e], i, j, cooldown) {
      if j < |events| {
        OldPairStaysSpaced(events, e, i, j, cooldown);
      } else {
        NewPairIsSpaced(events, e, i, cooldown);
      }
    }
  }

  lemma OldPairStaysSpaced(events: seq<AuditEvent>, e: AuditEvent, i: nat, j: nat, cooldown: int)
    requires i < j < |events| && PairSpaced(events, i, j, cooldown)
    ensures PairSpaced(events + [e], i, j, cooldown)
  {
    BetweenUnchanged(events, e, i, j);
  }

  lemma NewPairIsSpaced(events: seq<AuditEvent>, e: AuditEvent, i: nat, cooldown: int)
    requires i < |events| && ReadyFor(events, i, e, cooldown)
    ensures PairSpaced(events + [e], i, |events|, cooldown)
  {
    if SameSource(events[i], e) {
      BetweenLast(events, e, i);
    }
  }

  lemma BetweenUnchanged(events: seq<AuditEvent>, e: AuditEvent, i: nat, j: nat)
    requires i < j < |events|
    ensures Between(events + [e], i, j) == Between(events, i, j)
  {
    FollowersOfAppended(events, e, STUFFING, i);
    FollowersOfAppended(events, e, STUFFING, j);
  }

  lemma BetweenLast(events: seq<AuditEvent>, e: AuditEvent, i: nat)
    requires i < |events| && e.kind == STUFFING
    ensures Between(events + [e], i, |events|) == Followers(events, STUFFING, i)
  {
    FollowersOfAppended(events, e, STUFFING, i);
    assert Followers(events + [e], STUFFING, |events|) == 0;
  }

  /** Two stuffing events of one IP are more than the cooldown apart, or at least 50 others lie between them. */
  lemma {:induction false} EventsAreSpaced(t: Thresholds, steps: seq<Step>)
    requires t.cooldown > 0 && forall k | 0 <= k < |steps| :: Allowed(steps[k])
    ensures Spaced(Run(t, steps), t.cooldown)
    decreases |steps|
  {
    if steps != [] {
      var before := Run(t, steps[..|steps| - 1]);
      var last := steps[|steps| - 1];
      EventsAreSpaced(t, steps[..|steps| - 1]);
      assert Allowed(last);
      match last
      case Detect(obs, userId, ip, c) =>
        if Run(t, steps) != before {
          SuppressedIff(before, t.cooldown, ip, c.cutoff);
          var e := AuditEvent(STUFFING, userId, ip, c.recording);
          var cutoff := c.cutoff - t.cooldown;
          forall i | 0 <= i < |before| ensures ReadyFor(before, i, e, t.cooldown) {
            assert !StillFlags(before, ip, cutoff, i);
          }
          SpacingSurvivesAppend(before, e, t.cooldown);
        }
      case OtherEvent(e) =>
        assert forall i | 0 <= i < |before| :: ReadyFor(before, i, e, t.cooldown);
        SpacingSurvivesAppend(before, e, t.cooldown);
    }
  }

  /** The scan limit is felt: after 50 stuffing events of other IPs, this IP is recorded again within its cooldown. */
  lemma FloodDefeatsTheCooldown(events: seq<AuditEvent>, t: Thresholds, obs: TargetCounts, userId: string, ip: string, c: Clock, i: nat)
    requires ip != "" && !t.Off() && t.Evaluate(obs) != []
    requires i < |events| && Followers(events, STUFFING, i) >= SCAN_LIMIT
    requires forall k | i < k < |events| :: events[k].ip != ip
    ensures Detected(events, t, obs, userId, ip, c) == events + [AuditEvent(STUFFING, userId, ip, c.recording)]
  {
    SuppressedIff(events, t.cooldown, ip, c.cutoff);
    forall k | 0 <= k <= i ensures Followers(events, STUFFING, k) >= SCAN_LIMIT {
      FollowersFall(events, STUFFING, k, i);
    }
  }

  lemma {:induction false} FollowersFall(events: seq<AuditEvent>, kind: EventKind, i: nat, j: nat)
    requires i <= j < |events|
    ensures Followers(events, kind, i) >= Followers(events, kind, j)
    decreases j as int - i as int
  {
    if i < j {
      FollowersFall(events, kind, i + 1, j);
    }
  }

  // ----- A run in which that happens -----

  /** An address of its own for each of the others. */
  function OtherIp(ip: string, n: nat): string {
    ip + seq(n + 1, i requires 0 <= i <= n => '.')
  }

  function DetectionAt(obs: TargetCounts, userId: string, ip: string): Step {
    Detect(obs, userId, ip, Clock(0, 0, 0))
  }

  /** One detection at the IP, then one at each of n others, all at time 0. */
  function Flood(obs: TargetCounts, userId: string, ip: string, n: nat): seq<Step> {
    if n == 0 then [DetectionAt(obs, userId, ip)]
    else Flood(obs, userId, ip, n - 1) + [DetectionAt(obs, userId, OtherIp(ip, n))]
  }

  function FloodLog(userId: string, ip: string, n: nat): seq<AuditEvent> {
    if n == 0 then [AuditEvent(STUFFING, userId, ip, 0)]
    else FloodLog(userId, ip, n - 1) + [AuditEvent(STUFFING, userId, OtherIp(ip, n), 0)]
  }

  lemma {:induction false} FloodLogIs(userId: string, ip: string, n: nat)
    ensures |FloodLog(userId, ip, n)| == n + 1 && Followers(FloodLog(userId, ip, n), STUFFING, 0) == n
    ensures FloodLog(userId, ip, n)[0] == AuditEvent(STUFFING, userId, ip, 0)
    ensures forall k | 1 <= k <= n :: |ip| < |FloodLog(userId, ip, n)[k].ip| <= |ip| + n + 1
  {
    if n > 0 {
      FloodLogIs(userId, ip, n - 1);
      FollowersOfAppended(FloodLog(userId, ip, n - 1), AuditEvent(STUFFING, userId, OtherIp(ip, n), 0), STUFFING, 0);
    }
  }

  /** Nothing in the log is from this IP, so its detection is recorded. */
  lemma StrangerIsRecorded(events: seq<AuditEvent>, t: Thresholds, obs: TargetCounts, userId: string, ip: string, c: Clock)
    requires ip != "" && !t.Off() && t.Evaluate(obs) != []
    requires forall k | 0 <= k < |events| :: events[k].ip != ip
    ensures Detected(events, t, obs, userId, ip, c) == events + [AuditEvent(STUFFING, userId, ip, c.recording)]
  {
    SuppressedIff(events, t.cooldown, ip, c.cutoff);
  }

  lemma OneMoreDetection(t: Thresholds, steps: seq<Step>, obs: TargetCounts, userId: string, ip: string)
    ensures Run(t, steps + [DetectionAt(obs, userId, ip)]) == Detected(Run(t, steps), t, obs, userId, ip, Clock(0, 0, 0))
  {
    assert (steps + [DetectionAt(obs, userId, ip)])[..|steps|] == steps;
  }

  lemma {:induction false} FloodIsAllowed(obs: TargetCounts, userId: string, ip: string, n: nat)
    ensures forall k | 0 <= k < |Flood(obs, userId, ip, n)| :: Allowed(Flood(obs, userId, ip, n)[k])
  {
    if n == 0 {
      assert Allowed(DetectionAt(obs, userId, ip));
    } else {
      assert Allowed(DetectionAt(obs, userId, OtherIp(ip, n)));
      FloodIsAllowed(obs, userId, ip, n - 1);
    }
  }

  lemma {:induction false} FloodRuns(t: Thresholds, obs: TargetCounts, userId: string, ip: string, n: nat)
    requires ip != "" && !t.Off() && t.Evaluate(obs) != []
    ensures Run(t, Flood(obs, userId, ip, n)) == FloodLog(userId, ip, n)
  {
    hide Detected, Run, Thresholds.Evaluate, Thresholds.Off;
    if n == 0 {
      NothingRun(t);
      StrangerIsRecorded([], t, obs, userId, ip, Clock(0, 0, 0));
      OneMoreDetection(t, [], obs, userId, ip);
      assert [] + [DetectionAt(obs, userId, ip)] == Flood(obs, userId, ip, 0);
      assert [] + [AuditEvent(STUFFING, userId, ip, 0)] == FloodLog(userId, ip, 0);
    } else {
      var log := FloodLog(userId, ip, n - 1);
      FloodRuns(t, obs, userId, ip, n - 1);
      FloodLogIs(userId, ip, n - 1);
      OneMoreDetection(t, Flood(obs, userId, ip, n - 1), obs, userId, OtherIp(ip, n));
      StrangerIsRecorded(log, t, obs, userId, OtherIp(ip, n), Clock(0, 0, 0));
    }
  }

  lemma NothingRun(t: Thresholds)
    ensures Run(t, []) == []
  {
  }

  /** A flood of n others before the IP is seen again. */
  lemma FloodThenAgain(t: Thresholds, obs: TargetCounts, userId: string, ip: string, n: nat)
    requires n == SCAN_LIMIT && ip != "" && !t.Off() && t.Evaluate(obs) != []
    ensures var log := Run(t, Flood(obs, userId, ip, n) + [DetectionAt(obs, userId, ip)]);
      log == FloodLog(userId, ip, n) + [AuditEvent(STUFFING, userId, ip, 0)] && Between(log, 0, |log| - 1) == n
  {
    hide Run, Flood, FloodLog, Followers, Detected, Thresholds.Evaluate, Thresholds.Off;
    var log := FloodLog(userId, ip, n);
    FloodRuns(t, obs, userId, ip, n);
    FloodLogIs(userId, ip, n);
    OneMoreDetection(t, Flood(obs, userId, ip, n), obs, userId, ip);
    FloodDefeatsTheCooldown(log, t, obs, userId, ip, Clock(0, 0, 0), 0);
    BetweenLast(log, AuditEvent(STUFFING, userId, ip, 0), 0);
  }

  /**
   Fifty others between are not only needed but enough: for every threshold that flags and every positive cooldown
   there is a run that records one IP twice at the same moment, with exactly fifty stuffing events between.
   */
  lemma FloodIsReachable(t: Thresholds, obs: TargetCounts, userId: string, ip: string) returns (steps: seq<Step>)
    requires ip != "" && t.cooldown > 0 && !t.Off() && t.Evaluate(obs) != []
    ensures forall k | 0 <= k < |steps| :: Allowed(steps[k])
    ensures var log := Run(t, steps);
      && |log| == 52 && SameSource(log[0], log[|log| - 1]) && log[0].ip == ip
      && log[|log| - 1].createdAt == log[0].createdAt
      && Between(log, 0, |log| - 1) == 50
  {
    hide Run, Flood, FloodLog, Followers, Thresholds.Evaluate, Thresholds.Off;
    steps := Flood(obs, userId, ip, SCAN_LIMIT) + [DetectionAt(obs, userId, ip)];
    FloodThenAgain(t, obs, userId, ip, SCAN_LIMIT);
    FloodLogIs(userId, ip, SCAN_LIMIT);
    FloodIsAllowed(obs, userId, ip, SCAN_LIMIT);
    assert Allowed(DetectionAt(obs, userId, ip));
  }
}
