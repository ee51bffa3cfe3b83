/** The in-memory audit store: an append-only log, searched from its newest end. */
module Audit {
  import opened Wrappers

  /** The event types the engine records, and any other a host records under its own name. */
  datatype EventKind =
    | AccountLocked | TokenReuseDetected | AnomalyDetected | CredentialStuffingDetected
    | SignupSuccess | AccountDeleted | PasswordChanged | PasswordBreachRejected | PasswordHashUpgraded
    | EmailChangeRequested | EmailChanged
    | LoginSuccess | LoginFailed | MagicLinkRequested | Logout | LogoutAll | SessionRevoked | TokenRotated
    | OAuthLinked | TOTPEnabled | TOTPDisabled | TOTPChallengeFailed
    | WebAuthnRegistered | WebAuthnRemoved | WebAuthnChallengeFailed
    | RecoveryCodesGenerated | RecoveryCodeUsed | RecoveryCodeFailed
    | APIKeyCreated | APIKeyRevoked | APIKeyRejected
    | HostEvent(name: string)

  datatype AuditEvent = AuditEvent(kind: EventKind, userId: string, ip: string, createdAt: Instant)

  /** The newest events of a kind, newest first, at most `limit` of them. */
  function Newest(events: seq<AuditEvent>, kind: EventKind, limit: nat): seq<AuditEvent> {
    if events == [] || limit == 0 then []
    else
      var (before, e) := (events[..|events| - 1], events[|events| - 1]);
      if e.kind == kind then [e] + Newest(before, kind, limit - 1) else Newest(before, kind, limit)
  }

  /** How many events of the kind follow position i. */
  function Followers(events: seq<AuditEvent>, kind: EventKind, i: nat): nat
    decreases |events| - i
  {
    if i + 1 >= |events| then 0 else Followers(events, kind, i + 1) + if events[i + 1].kind == kind then 1 else 0
  }

  function CountSince(events: seq<AuditEvent>, kind: EventKind, since: Instant): nat {
    if events == [] then 0
    else
      var (before, e) := (events[..|events| - 1], events[|events| - 1]);
      CountSince(before, kind, since) + if e.kind == kind && e.createdAt >= since then 1 else 0
  }

  lemma NewestOfMore(events: seq<AuditEvent>, i: nat, kind: EventKind, limit: nat)
    requires i < |events| && limit > 0
    ensures Newest(events[..i + 1], kind, limit) ==
      if events[i].kind == kind then [events[i]] + Newest(events[..i], kind, limit - 1) else Newest(events[..i], kind, limit)
  {
    assert events[..i + 1][..i] == events[..i];
  }

  lemma NothingNewest(events: seq<AuditEvent>, kind: EventKind, limit: nat)
    ensures events == [] || limit == 0 ==> Newest(events, kind, limit) == []
  {
  }

  class AuditStore {
    var events: seq<AuditEvent>

    constructor ()
      ensures events == []
    {
      events := [];
    }

    method Record(e: AuditEvent, now: Instant)
      modifies this
      ensures events == old(events) + [e.(createdAt := now)]
    {
      events := events + [e.(createdAt := now)];
    }

    method SearchByType(kind: EventKind, limit: nat) returns (out: seq<AuditEvent>)
      ensures out == Newest(events, kind, limit)
    {
      hide Newest;
      out := [];
      var i := |events|;
      assert events[..i] == events;
      while i > 0 && |out| < limit
        invariant 0 <= i <= |events| && |out| <= limit
        invariant out + Newest(events[..i], kind, limit - |out|) == Newest(events, kind, limit)
      {
        i := i - 1;
        NewestOfMore(events, i, kind, limit - |out|);
        if events[i].kind == kind {
          out := out + [events[i]];
        }
      }
      NothingNewest(events[..i], kind, limit - |out|);
    }

    /** Kinds with no event in the window are absent from the map. */
    method CountByType(since: Instant) returns (counts: map<EventKind, nat>)
      ensures forall kind :: (kind in counts <==> CountSince(events, kind, since) > 0)
      ensures forall kind | kind in counts :: counts[kind] == CountSince(events, kind, since) == |PositionsSince(events, kind, since)|
    {
      counts := map[];
      for k := 0 to |events|
        invariant forall kind :: (kind in counts <==> CountSince(events[..k], kind, since) > 0)
        invariant forall kind | kind in counts :: counts[kind] == CountSince(events[..k], kind, since)
      {
        var e := events[k];
        assert events[..k + 1][..k] == events[..k];
        if e.createdAt >= since {
          counts := counts[e.kind := if e.kind in counts then counts[e.kind] + 1 else 1];
        }
      }
      assert events[..|events|] == events;
      forall kind ensures CountSince(events, kind, since) == |PositionsSince(events, kind, since)| {
        CountSinceIs(events, kind, since);
      }
    }
  }

  /** Appending adds one follower to every earlier event. */
  lemma {:induction false} FollowersOfAppended(events: seq<AuditEvent>, e: AuditEvent, kind: EventKind, i: nat)
    requires i < |events|
    ensures Followers(events + [e], kind, i) == Followers(events, kind, i) + if e.kind == kind then 1 else 0
    decreases |events| - i
  {
    if i + 1 < |events| {
      FollowersOfAppended(events, e, kind, i + 1);
    } else {
      assert Followers(events + [e], kind, |events|) == 0;
    }
  }

  /** The positions of the kind's events at or after `since`. */
  function PositionsSince(events: seq<AuditEvent>, kind: EventKind, since: Instant): set<int> {
    set i | 0 <= i < |events| && events[i].kind == kind && since <= events[i].createdAt
  }

  lemma PositionsSinceOfSum(before: seq<AuditEvent>, e: AuditEvent, kind: EventKind, since: Instant)
    ensures PositionsSince(before + [e], kind, since)
         == PositionsSince(before, kind, since) + (if e.kind == kind && since <= e.createdAt then {|before|} else {})
    ensures |before| !in PositionsSince(before, kind, since)
  {
  }

  lemma {:induction false} CountSinceIs(events: seq<AuditEvent>, kind: EventKind, since: Instant)
    ensures CountSince(events, kind, since) == |PositionsSince(events, kind, since)|
  {
    if events != [] {
      var before, e := events[..|events| - 1], events[|events| - 1];
      assert events == before + [e];
      CountSinceIs(before, kind, since);
      PositionsSinceOfSum(before, e, kind, since);
    }
  }

  /** The positions behind i that hold the kind. */
  function Behind(events: seq<AuditEvent>, kind: EventKind, i: nat): set<int> {
    set j | i < j < |events| && events[j].kind == kind
  }

  lemma BehindNext(events: seq<AuditEvent>, kind: EventKind, i: nat)
    requires i < |events|
    ensures Behind(events, kind, i) ==
      if i + 1 >= |events| then {} else Behind(events, kind, i + 1) + if events[i + 1].kind == kind then {i + 1} else {}
    ensures i + 1 !in Behind(events, kind, i + 1)
  {
  }

  lemma {:induction false} FollowersAre(events: seq<AuditEvent>, kind: EventKind, i: nat)
    requires i < |events|
    ensures Followers(events, kind, i) == |Behind(events, kind, i)|
    decreases |events| - i
  {
    hide Behind;
    BehindNext(events, kind, i);
    if i + 1 < |events| {
      FollowersAre(events, kind, i + 1);
    }
  }

  ghost predicate FoundIn(found: seq<AuditEvent>, wanted: AuditEvent -> bool) {
    exists k :: 0 <= k < |found| && wanted(found[k])
  }

  ghost predicate AmongNewest(events: seq<AuditEvent>, kind: EventKind, limit: nat, wanted: AuditEvent -> bool) {
    exists i :: WantedAt(events, kind, limit, wanted, i)
  }

  /** Position i holds a wanted event of the kind, with fewer than `limit` of the kind after it. */
  ghost predicate WantedAt(events: seq<AuditEvent>, kind: EventKind, limit: nat, wanted: AuditEvent -> bool, i: int) {
    0 <= i < |events| && events[i].kind == kind && wanted(events[i]) && Followers(events, kind, i) < limit
  }

  /** The search returns exactly the events of the kind that fewer than `limit` of the kind follow. */
  lemma {:induction false} NewestIs(events: seq<AuditEvent>, kind: EventKind, limit: nat, wanted: AuditEvent -> bool)
    ensures FoundIn(Newest(events, kind, limit), wanted) <==> AmongNewest(events, kind, limit, wanted)
    decreases |events|
  {
    if events != [] && limit > 0 {
      var n := |events|;
      var before, e := events[..n - 1], events[n - 1];
      var left := if e.kind == kind then limit - 1 else limit;
      assert events == before + [e];
      NewestIs(before, kind, left, wanted);
      FoundInOfSum(e, Newest(before, kind, left), wanted);
      AmongNewestOfSum(before, e, kind, limit, wanted);
    }
  }

  lemma FoundInOfSum(e: AuditEvent, rest: seq<AuditEvent>, wanted: AuditEvent -> bool)
    ensures FoundIn([e] + rest, wanted) <==> wanted(e) || FoundIn(rest, wanted)
  {
    var all := [e] + rest;
    assert all[0] == e;
    if FoundIn(rest, wanted) {
      var k :| 0 <= k < |rest| && wanted(rest[k]);
      assert all[k + 1] == rest[k];
    }
  }

  lemma WantedOfSum(before: seq<AuditEvent>, e: AuditEvent, kind: EventKind, limit: nat, wanted: AuditEvent -> bool, i: nat)
    requires limit > 0 && i <= |before|
    ensures WantedAt(before + [e], kind, limit, wanted, i)
      <==> if i == |before| then e.kind == kind && wanted(e)
           else WantedAt(before, kind, if e.kind == kind then limit - 1 else limit, wanted, i)
  {
    if i < |before| {
      FollowersOfAppended(before, e, kind, i);
    } else {
      assert Followers(before + [e], kind, i) == 0;
    }
  }

  lemma AmongNewestOfSum(before: seq<AuditEvent>, e: AuditEvent, kind: EventKind, limit: nat, wanted: AuditEvent -> bool)
    requires limit > 0
    ensures AmongNewest(before + [e], kind, limit, wanted)
      <==> if e.kind == kind then wanted(e) || AmongNewest(before, kind, limit - 1, wanted) else AmongNewest(before, kind, limit, wanted)
  {
    hide Followers;
    var left := if e.kind == kind then limit - 1 else limit;
    WantedOfSum(before, e, kind, limit, wanted, |before|);
    if AmongNewest(before, kind, left, wanted) {
      var i :| WantedAt(before, kind, left, wanted, i);
      WantedOfSum(before, e, kind, limit, wanted, i);
    }
    if AmongNewest(before + [e], kind, limit, wanted) {
      var i :| WantedAt(before + [e], kind, limit, wanted, i);
      WantedOfSum(before, e, kind, limit, wanted, i);
    }
  }
}
