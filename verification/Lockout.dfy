/** Account lockout: what the counter counts, when the lock is set, and how many guesses a run can make. */
module Lockout {
  import opened Wrappers
  import opened Sessions
  import opened AccountStores
  import opened Login
  import opened Runs
  import opened Gate
  import opened Factors

  /** The event has a password compared against the account's hash by Login. */
  ghost predicate Compares(s: State, e: Event, u: Id) {
    && e.action.Password? && e.action.allowed
    && u in s.users && s.users[u].email == e.action.email && !Locked(s.users[u], e.call.at)
  }

  ghost predicate Succeeds(p: Policy, s: State, e: Event, u: Id) {
    Compares(s, e, u) && p.passwordMatches(s.users[u].passwordHash, e.action.password)
  }

  ghost predicate Fails(p: Policy, s: State, e: Event, u: Id) {
    Compares(s, e, u) && !p.passwordMatches(s.users[u].passwordHash, e.action.password)
  }

  // ----- One step -----

  /** The part of an account that lockout is about. */
  datatype Lock = Lock(failedAttempts: nat, until: Option<Instant>)

  function LockOf(t: Users, u: Id): Lock
    requires u in t
  {
    Lock(t[u].failedAttempts, t[u].lockedUntil)
  }

  function LockAfterFailure(p: Policy, l: Lock, later: Instant): Lock {
    Lock(l.failedAttempts + 1, if l.failedAttempts + 1 >= p.threshold then Some(later + p.lockout) else l.until)
  }

  /** The lock of an account, and a clean one for an account there is not. */
  function LockAt(t: Users, u: Id): Lock {
    if u in t then LockOf(t, u) else Lock(0, None)
  }

  /** An account stays, and its lock follows what Login compares; one that is created starts clean. */
  ghost predicate LockStep(p: Policy, s: State, e: Event, s': State, u: Id) {
    && (u in s.users ==> u in s'.users)
    && LockAt(s'.users, u) ==
       if Fails(p, s, e, u) then LockAfterFailure(p, LockAt(s.users, u), e.call.later)
       else if Succeeds(p, s, e, u) then Lock(0, None)
       else LockAt(s.users, u)
  }

  /** What a password login does to the users: nothing, or one failure or success of the account it names. */
  lemma PasswordChangesUsers(p: Policy, s: State, e: Event)
    requires e.action.Password?
    ensures var found := UserByEmail(s.users, e.action.email);
      Next(p, s, e).users ==
        if !e.action.allowed || found.None? || Locked(found.value, e.call.at) then s.users
        else if p.passwordMatches(found.value.passwordHash, e.action.password)
        then s.users[found.value.id := AfterSuccess(p, found.value, e.action.password, e.call)]
        else s.users[found.value.id := AfterFailure(p, found.value, e.call)]
  {
    hide FinishLogin, CompletePrimaryAuth;
    var found := UserByEmail(s.users, e.action.email);
    if found.Some? {
      var v := found.value;
      GateKeepsFactors(p, s.(users := s.users[v.id := AfterSuccess(p, v, e.action.password, e.call)]), v.id, e.call);
    }
  }

  lemma PasswordLockStep(p: Policy, s: State, e: Event, s': State, u: Id)
    requires UsersWellFormed(s.users) && Follows(p, s, e, s') && e.action.Password?
    ensures LockStep(p, s, e, s', u)
  {
    PasswordChangesUsers(p, s, e);
    var found := UserByEmail(s.users, e.action.email);
    assert u in s.users && s.users[u].email == e.action.email ==> HasEmail(s.users, e.action.email);
    if found.Some? {
      var v := found.value;
      assert v.id in s.users && s.users[v.id] == v;
      assert u in s.users ==> (s.users[u].email == e.action.email <==> u == v.id);
    }
  }

  lemma LinkKeepsUsers(p: Policy, s: State, e: Event)
    requires e.action.FollowLink?
    ensures Next(p, s, e).users == s.users
  {
    hide FinishLogin, CompletePrimaryAuth;
    var s' := CompleteMagicLink(p, s, e.action.raw, e.call).0;
    var found := TokenByHash(s.mailed, HashToken(e.action.raw));
    if found.Some? && IsGoodLink(found.value, e.action.raw, found.value.userId, e.call.at) {
      var vt := found.value;
      var used := if vt.id in s.mailed then s.(mailed := s.mailed[vt.id := s.mailed[vt.id].(usedAt := Some(e.call.later))]) else s;
      GateKeepsFactors(p, used, vt.userId, e.call);
      assert s' == if vt.userId in s.users then CompletePrimaryAuth(p, used, vt.userId, e.call).0 else used;
    } else {
      assert s' == s;
    }
  }

  lemma OAuthKeepsLocks(p: Policy, s: State, e: Event, u: Id)
    requires e.action.OAuth? && Fresh(s, e)
    ensures LockStep(p, s, e, Next(p, s, e), u)
  {
    hide FinishLogin, CompletePrimaryAuth;
    var c := e.call;
    var found := IdentityOf(s.identities, e.action.provider, e.action.externalId);
    if found.Some? {
      GateKeepsFactors(p, s, found.value.userId, c);
    } else {
      GateKeepsFactors(p, s.(users := s.users[c.newId := User(c.newId, e.action.email, "", 0, None)],
                           identities := s.identities[c.newRow := OAuthIdentity(c.newRow, c.newId, e.action.provider, e.action.externalId)]),
                     c.newId, c);
    }
  }

  lemma EnrolmentKeepsUsers(p: Policy, s: State, e: Event)
    requires e.action.Enroll? || e.action.Confirm? || e.action.Disable? || e.action.NewCodes?
    ensures Next(p, s, e).users == s.users
  {
    hide PasswordLogin, CompleteMagicLink, LoginWithOAuth, CompleteLoginWithTOTP, CompleteLoginWithRecoveryCode, CompleteLoginWithWebAuthn;
  }

  lemma OthersKeepUsers(p: Policy, s: State, e: Event)
    requires e.action.AskForLink? || e.action.Link?
    ensures Next(p, s, e).users == s.users
  {
  }

  lemma PasskeysKeepUsers(p: Policy, s: State, e: Event)
    requires e.action.AddPasskey? || e.action.RemovePasskey?
    ensures Next(p, s, e).users == s.users
  {
  }

  lemma RegisterKeepsLocks(p: Policy, s: State, e: Event, u: Id)
    requires e.action.Register? && Fresh(s, e)
    ensures LockStep(p, s, e, Next(p, s, e), u)
  {
  }

  lemma SetPasswordKeepsLocks(p: Policy, s: State, e: Event, u: Id)
    requires e.action.SetPassword?
    ensures LockStep(p, s, e, Next(p, s, e), u)
  {
  }

  /** Counter and lock move only on a password compared by Login: no other operation, and no other user's login, touches them. */
  lemma EveryStepIsALockStep(p: Policy, s: State, e: Event, s': State, u: Id)
    requires WellFormedState(s) && Fresh(s, e) && Follows(p, s, e, s')
    ensures LockStep(p, s, e, s', u)
  {
    match e.action
    case Password(_, _, _) => PasswordLockStep(p, s, e, s', u);
    case FollowLink(_) => LinkKeepsUsers(p, s, e);
    case OAuth(_, _, _) => OAuthKeepsLocks(p, s, e, u);
    case AnswerTOTP(_, _) => SecondKeepsFactors(p, s, e);
    case AnswerWebAuthn(_, _, _) => SecondKeepsFactors(p, s, e);
    case AnswerRecoveryCode(_, _) => SecondKeepsFactors(p, s, e);
    case Register(_, _, _) => RegisterKeepsLocks(p, s, e, u);
    case SetPassword(_, _, _) => SetPasswordKeepsLocks(p, s, e, u);
    case Enroll(_, _) => EnrolmentKeepsUsers(p, s, e);
    case Confirm(_, _) => EnrolmentKeepsUsers(p, s, e);
    case Disable(_, _) => EnrolmentKeepsUsers(p, s, e);
    case NewCodes(_, _) => EnrolmentKeepsUsers(p, s, e);
    case AddPasskey(_, _, _) => PasskeysKeepUsers(p, s, e);
    case RemovePasskey(_, _, _) => PasskeysKeepUsers(p, s, e);
    case _ => OthersKeepUsers(p, s, e);
  }

  // ----- The history of one account -----

  /** What a run asks of one account's lock: successes, and failures at a first and a last clock reading. */
  datatype Try = Success | Failure(at: Instant, later: Instant)

  function Unblocked(l: Lock, at: Instant): bool {
    l.until.None? || at >= l.until.value
  }

  ghost function TriesIn(p: Policy, states: seq<State>, events: seq<Event>, u: Id, n: nat): seq<Try>
    requires |states| == |events| + 1 && n <= |events|
  {
    if n == 0 then []
    else
      TriesIn(p, states, events, u, n - 1) + TryOf(p, states[n - 1], events[n - 1], u)
  }

  ghost function TryOf(p: Policy, s: State, e: Event, u: Id): seq<Try> {
    if Succeeds(p, s, e, u) then [Success] else if Fails(p, s, e, u) then [Failure(e.call.at, e.call.later)] else []
  }

  /** The lock after a list of tries. */
  function Play(p: Policy, l: Lock, tries: seq<Try>): Lock {
    if tries == [] then l
    else AfterTry(p, Play(p, l, tries[..|tries| - 1]), tries[|tries| - 1])
  }

  function AfterTry(p: Policy, l: Lock, t: Try): Lock {
    if t.Success? then Lock(0, None) else LockAfterFailure(p, l, t.later)
  }

  /** Every try came when the account was not blocked, and no earlier than the one before it ended. */
  ghost predicate Legal(p: Policy, l: Lock, tries: seq<Try>) {
    forall n | 0 <= n < |tries| :: LegalAt(p, l, tries, n)
  }

  ghost predicate LegalAt(p: Policy, l: Lock, tries: seq<Try>, n: nat)
    requires n < |tries|
  {
    tries[n].Failure? ==> Unblocked(Play(p, l, tries[..n]), tries[n].at)
  }

  ghost predicate InOrder(tries: seq<Try>) {
    && (forall i | 0 <= i < |tries| && tries[i].Failure? :: tries[i].at <= tries[i].later)
    && (forall i, j | 0 <= i < j < |tries| && tries[i].Failure? && tries[j].Failure? :: tries[i].later <= tries[j].at)
  }

  /** Failures since the last success. */
  function FailuresSince(tries: seq<Try>): nat {
    if tries == [] || tries[|tries| - 1].Success? then 0 else 1 + FailuresSince(tries[..|tries| - 1])
  }

  lemma PlayOfMore(p: Policy, l: Lock, tries: seq<Try>, t: Try)
    ensures Play(p, l, tries + [t]) == AfterTry(p, Play(p, l, tries), t)
  {
    assert (tries + [t])[..|tries|] == tries;
  }

  ghost predicate AllLockSteps(p: Policy, states: seq<State>, events: seq<Event>, u: Id) {
    |states| == |events| + 1 && forall i | 0 <= i < |events| :: LockStep(p, states[i], events[i], states[i + 1], u)
  }

  lemma RunIsLockSteps(p: Policy, states: seq<State>, events: seq<Event>, u: Id)
    requires IsRun(p, states, events)
    ensures AllLockSteps(p, states, events, u)
  {
    forall i | 0 <= i < |events| ensures LockStep(p, states[i], events[i], states[i + 1], u) {
      RunKeepsWellFormed(p, states, events, i);
      EveryStepIsALockStep(p, states[i], events[i], states[i + 1], u);
    }
  }

  /** In every run an account's counter and lock are what its own tries make them, from the start or from its creation. */
  lemma {:induction false} LockFollowsTries(p: Policy, states: seq<State>, events: seq<Event>, u: Id, n: nat)
    requires AllLockSteps(p, states, events, u) && n <= |events|
    ensures LockAt(states[n].users, u) == Play(p, LockAt(states[0].users, u), TriesIn(p, states, events, u, n))
  {
    if n > 0 {
      LockFollowsTries(p, states, events, u, n - 1);
      assert LockStep(p, states[n - 1], events[n - 1], states[n - 1 + 1], u);
      LockFollowsOne(p, states[n - 1], events[n - 1], states[n], u, LockAt(states[0].users, u), TriesIn(p, states, events, u, n - 1));
    }
  }

  lemma LockFollowsOne(p: Policy, s: State, e: Event, s': State, u: Id, l: Lock, tries: seq<Try>)
    requires LockStep(p, s, e, s', u) && LockAt(s.users, u) == Play(p, l, tries)
    ensures LockAt(s'.users, u) == Play(p, l, tries + TryOf(p, s, e, u))
  {
    var t := TryOf(p, s, e, u);
    if t == [] {
      assert tries + t == tries;
    } else {
      PlayOfMore(p, l, tries, t[0]);
    }
  }

  /** The counter is the number of failures since the last success; the lock stands exactly when that is at least the threshold. */
  lemma {:induction false} CounterAndLock(p: Policy, tries: seq<Try>)
    requires p.threshold >= 1
    ensures var l := Play(p, Lock(0, None), tries);
      && l.failedAttempts == FailuresSince(tries)
      && (l.until.Some? <==> FailuresSince(tries) >= p.threshold)
      && (l.until.Some? ==> tries != [] && tries[|tries| - 1].Failure? && l.until.value == tries[|tries| - 1].later + p.lockout)
  {
    if tries != [] {
      CounterAndLock(p, tries[..|tries| - 1]);
    }
  }

  /** ... so at every point of every run, for an account that starts clean, there from the start or created on the way. */
  lemma CounterCountsFailures(p: Policy, states: seq<State>, events: seq<Event>, u: Id, n: nat)
    requires IsRun(p, states, events) && p.threshold >= 1 && n <= |events|
    requires u in states[n].users && LockAt(states[0].users, u) == Lock(0, None)
    ensures var tries := TriesIn(p, states, events, u, n); var user := states[n].users[u];
      && user.failedAttempts == FailuresSince(tries)
      && (user.lockedUntil.Some? <==> FailuresSince(tries) >= p.threshold)
  {
    RunIsLockSteps(p, states, events, u);
    LockFollowsTries(p, states, events, u, n);
    CounterAndLock(p, TriesIn(p, states, events, u, n));
  }

  // ----- How many guesses -----

  ghost predicate NoSuccess(tries: seq<Try>) {
    forall i | 0 <= i < |tries| :: tries[i].Failure?
  }

  function Max(a: int, b: int): int {
    if a > b then a else b
  }

  lemma {:induction false} CounterOfFailures(p: Policy, l: Lock, tries: seq<Try>)
    requires NoSuccess(tries)
    ensures Play(p, l, tries).failedAttempts == l.failedAttempts + |tries|
  {
    if tries != [] {
      CounterOfFailures(p, l, tries[..|tries| - 1]);
    }
  }

  /** Once the counter has reached the threshold, the next failure comes a whole lockout later. */
  lemma FailuresAreSpaced(p: Policy, l: Lock, tries: seq<Try>, n: nat)
    requires NoSuccess(tries) && InOrder(tries) && Legal(p, l, tries)
    requires 1 <= n < |tries| && l.failedAttempts + n >= p.threshold
    ensures tries[n].at >= tries[n - 1].later + p.lockout >= tries[n - 1].at + p.lockout
  {
    var before := tries[..n];
    assert NoSuccess(before[..n - 1]);
    CounterOfFailures(p, l, before[..n - 1]);
    assert before[n - 1] == tries[n - 1];
    assert LegalAt(p, l, tries, n);
  }

  /** Between the failure that first locks and failure n lie at least n - m whole lockouts. */
  lemma {:induction false} LockoutsBetween(p: Policy, l: Lock, tries: seq<Try>, m: nat, n: nat)
    requires NoSuccess(tries) && InOrder(tries) && Legal(p, l, tries)
    requires m <= n < |tries| && l.failedAttempts + m + 1 >= p.threshold
    ensures tries[n].at - tries[m].at >= (n - m) * p.lockout
    decreases n
  {
    if m < n {
      LockoutsBetween(p, l, tries, m, n - 1);
      FailuresAreSpaced(p, l, tries, n);
      assert (n - m) * p.lockout == (n - 1 - m) * p.lockout + p.lockout;
    }
  }

  /** Failures in a row, from any state of the account: at most the threshold, and one more for each lockout that fits. */
  lemma FailuresAreBounded(p: Policy, l: Lock, tries: seq<Try>)
    requires p.threshold >= 1 && p.lockout > 0
    requires NoSuccess(tries) && InOrder(tries) && Legal(p, l, tries) && tries != []
    ensures |tries| <= Max(p.threshold - l.failedAttempts, 1) + (tries[|tries| - 1].at - tries[0].at) / p.lockout
  {
    var first := Max(p.threshold - l.failedAttempts, 1);
    var elapsed := tries[|tries| - 1].at - tries[0].at;
    assert elapsed >= 0 by {
      if |tries| > 1 {
        assert tries[0].at <= tries[0].later <= tries[|tries| - 1].at;
      }
    }
    if |tries| > first {
      LockoutsBetween(p, l, tries, first - 1, |tries| - 1);
      assert tries[first - 1].at >= tries[0].at by {
        if first > 1 {
          assert tries[0].at <= tries[0].later <= tries[first - 1].at;
        }
      }
      QuotientAtLeast(elapsed, |tries| - first, p.lockout);
    }
  }

  lemma QuotientAtLeast(x: int, n: int, d: int)
    requires d > 0 && x >= n * d
    ensures x / d >= n
  {
    var q := x / d;
    assert q * d + x % d == x;
    assert (n - 1) * d == n * d - d;
    if q < n {
      ProductOrder(q, n - 1, d);
      assert false;
    }
  }

  lemma ProductOrder(a: int, b: int, d: int)
    requires a <= b && d > 0
    ensures a * d <= b * d
  {
    assert (b - a) * d >= 0;
  }

  // ----- ... in every run -----

  /** A failure at event n came when the lock, as the tries before it left it, no longer blocked. */
  ghost predicate FitsAt(p: Policy, states: seq<State>, events: seq<Event>, u: Id, l: Lock, n: nat)
    requires |states| == |events| + 1 && n < |events|
  {
    Fails(p, states[n], events[n], u) ==> Unblocked(Play(p, l, TriesIn(p, states, events, u, n)), events[n].call.at)
  }

  lemma FailureFits(p: Policy, states: seq<State>, events: seq<Event>, u: Id, n: nat)
    requires AllLockSteps(p, states, events, u) && n < |events|
    ensures FitsAt(p, states, events, u, LockAt(states[0].users, u), n)
  {
    LockFollowsTries(p, states, events, u, n);
    if Fails(p, states[n], events[n], u) {
      assert Unblocked(LockAt(states[n].users, u), events[n].call.at);
    }
  }

  lemma {:induction false} FittingTriesAreLegal(p: Policy, states: seq<State>, events: seq<Event>, u: Id, l: Lock, n: nat)
    requires |states| == |events| + 1 && n <= |events|
    requires forall k | 0 <= k < n :: FitsAt(p, states, events, u, l, k)
    ensures Legal(p, l, TriesIn(p, states, events, u, n))
  {
    if n > 0 {
      FittingTriesAreLegal(p, states, events, u, l, n - 1);
      assert FitsAt(p, states, events, u, l, n - 1);
      LegalOfMore(p, l, TriesIn(p, states, events, u, n - 1), TryOf(p, states[n - 1], events[n - 1], u));
    }
  }

  lemma TriesAreLegal(p: Policy, states: seq<State>, events: seq<Event>, u: Id)
    requires AllLockSteps(p, states, events, u)
    ensures Legal(p, LockAt(states[0].users, u), TriesIn(p, states, events, u, |events|))
  {
    forall k | 0 <= k < |events| ensures FitsAt(p, states, events, u, LockAt(states[0].users, u), k) {
      FailureFits(p, states, events, u, k);
    }
    FittingTriesAreLegal(p, states, events, u, LockAt(states[0].users, u), |events|);
  }

  lemma LegalOfMore(p: Policy, l: Lock, tries: seq<Try>, more: seq<Try>)
    requires Legal(p, l, tries) && |more| <= 1
    requires forall t | t in more && t.Failure? :: Unblocked(Play(p, l, tries), t.at)
    ensures Legal(p, l, tries + more)
  {
    var all := tries + more;
    forall n | 0 <= n < |all| ensures LegalAt(p, l, all, n) {
      if n < |tries| {
        assert LegalAt(p, l, tries, n);
        assert all[..n] == tries[..n];
      } else {
        assert all[..n] == tries;
      }
    }
  }

  ghost predicate EndsBefore(tries: seq<Try>, now: Instant) {
    forall i | 0 <= i < |tries| && tries[i].Failure? :: tries[i].later <= now
  }

  lemma {:induction false} TriesAreInOrder(p: Policy, states: seq<State>, events: seq<Event>, u: Id, n: nat)
    requires |states| == |events| + 1 && Sequential(events) && n <= |events|
    ensures InOrder(TriesIn(p, states, events, u, n))
    ensures forall k | n <= k < |events| :: EndsBefore(TriesIn(p, states, events, u, n), events[k].call.at)
  {
    hide Succeeds, Fails;
    if n > 0 {
      var tries := TriesIn(p, states, events, u, n - 1);
      TriesAreInOrder(p, states, events, u, n - 1);
      assert EndsBefore(tries, events[n - 1].call.at);
      OneMoreInOrder(tries, TryOf(p, states[n - 1], events[n - 1], u), events[n - 1].call);
    }
  }

  lemma OneMoreInOrder(tries: seq<Try>, more: seq<Try>, c: Call)
    requires InOrder(tries) && EndsBefore(tries, c.at) && c.at <= c.later
    requires more == [] || more == [Success] || more == [Failure(c.at, c.later)]
    ensures InOrder(tries + more)
    ensures forall now | now >= c.later :: EndsBefore(tries + more, now)
  {
  }

  /**
   With threshold k >= 1 and lockout D > 0, a run without a success makes at most k + floor(T / D) comparisons
   on an account, old or new, with T between the first and the last.
   */
  lemma GuessesAreBounded(p: Policy, states: seq<State>, events: seq<Event>, u: Id)
    requires IsRun(p, states, events) && p.threshold >= 1 && p.lockout > 0
    requires NoSuccess(TriesIn(p, states, events, u, |events|)) && TriesIn(p, states, events, u, |events|) != []
    ensures var tries := TriesIn(p, states, events, u, |events|);
      |tries| <= p.threshold + (tries[|tries| - 1].at - tries[0].at) / p.lockout
  {
    hide TriesIn;
    RunIsLockSteps(p, states, events, u);
    TriesAreLegal(p, states, events, u);
    TriesAreInOrder(p, states, events, u, |events|);
    FailuresAreBounded(p, LockAt(states[0].users, u), TriesIn(p, states, events, u, |events|));
  }

  // ----- The bound is reached -----

  /** The moment of guess n: the first k at once, then one as each lockout ends. */
  function GuessTime(p: Policy, n: nat): Instant
    requires p.threshold >= 1
  {
    if n < p.threshold then 0 else (n - p.threshold + 1) * p.lockout
  }

  function GuessedUser(p: Policy, u: Id, hash: string, n: nat): User
    requires p.threshold >= 1
  {
    User(u, "", hash, n, if n < p.threshold then None else Some(GuessTime(p, n - 1) + p.lockout))
  }

  function GuessedState(p: Policy, u: Id, hash: string, n: nat): State
    requires p.threshold >= 1
  {
    State(map[u := GuessedUser(p, u, hash, n)], map[], map[], map[], map[], map[], map[], {})
  }

  function Guess(p: Policy, u: Id, password: string, n: nat): Event
    requires p.threshold >= 1
  {
    var t := GuessTime(p, n);
    Event(Call(t, t, "", "", "", "", u + "'", "", ""), Password("", password, true))
  }

  lemma GuessTimesGrow(p: Policy, m: nat, n: nat)
    requires p.threshold >= 1 && p.lockout > 0 && m <= n
    ensures GuessTime(p, m) <= GuessTime(p, n)
    ensures n >= p.threshold ==> GuessTime(p, n) == GuessTime(p, n - 1) + p.lockout
  {
    if m >= p.threshold {
      ProductOrder(m - p.threshold + 1, n - p.threshold + 1, p.lockout);
    } else if n >= p.threshold {
      ProductOrder(0, n - p.threshold + 1, p.lockout);
    }
    if n >= p.threshold {
      assert (n - p.threshold + 1) * p.lockout == (n - p.threshold) * p.lockout + p.lockout;
    }
  }

  lemma GuessFails(p: Policy, u: Id, hash: string, password: string, n: nat)
    requires p.threshold >= 1 && p.lockout > 0 && !p.passwordMatches(hash, password)
    ensures var (s, e) := (GuessedState(p, u, hash, n), Guess(p, u, password, n));
      Fresh(s, e) && Follows(p, s, e, GuessedState(p, u, hash, n + 1)) && Fails(p, s, e, u)
  {
    var s, e := GuessedState(p, u, hash, n), Guess(p, u, password, n);
    var user := s.users[u];
    assert HasEmail(s.users, "") by {
      assert u in s.users && s.users[u].email == "";
    }
    assert UserByEmail(s.users, "") == Some(user);
    GuessTimesGrow(p, n, n);
    assert !Locked(user, e.call.at);
    assert |u + "'"| != |u|;
    assert s.users[u := AfterFailure(p, user, e.call)] == GuessedState(p, u, hash, n + 1).users;
  }

  /** One guess after another, from a clean account on. */
  ghost predicate AreGuesses(p: Policy, states: seq<State>, events: seq<Event>, u: Id, hash: string, password: string)
    requires p.threshold >= 1
  {
    && |states| == |events| + 1
    && (forall i | 0 <= i < |states| :: states[i] == GuessedState(p, u, hash, i))
    && (forall i | 0 <= i < |events| :: events[i] == Guess(p, u, password, i))
  }

  lemma GuessesAreARun(p: Policy, states: seq<State>, events: seq<Event>, u: Id, hash: string, password: string)
    requires p.threshold >= 1 && p.lockout > 0 && !p.passwordMatches(hash, password)
    requires AreGuesses(p, states, events, u, hash, password)
    ensures IsRun(p, states, events)
  {
    hide Follows, Fresh;
    forall i | 0 <= i < |events| ensures Fresh(states[i], events[i]) && Follows(p, states[i], events[i], states[i + 1]) {
      GuessFails(p, u, hash, password, i);
      assert states[i + 1] == GuessedState(p, u, hash, i + 1);
    }
    forall i, j | 0 <= i < j < |events| ensures events[i].call.later <= events[j].call.at {
      GuessTimesGrow(p, i, j);
    }
  }

  function GuessedTries(p: Policy, n: nat): seq<Try>
    requires p.threshold >= 1
  {
    seq(n, i requires 0 <= i < n => Failure(GuessTime(p, i), GuessTime(p, i)))
  }

  lemma GuessIsTried(p: Policy, s: State, e: Event, u: Id, hash: string, password: string, n: nat)
    requires p.threshold >= 1 && p.lockout > 0 && !p.passwordMatches(hash, password)
    requires s == GuessedState(p, u, hash, n) && e == Guess(p, u, password, n)
    ensures TryOf(p, s, e, u) == [Failure(GuessTime(p, n), GuessTime(p, n))]
  {
    hide Follows, Fresh, GuessTime;
    GuessFails(p, u, hash, password, n);
  }

  lemma {:induction false} GuessesAreTries(p: Policy, states: seq<State>, events: seq<Event>, u: Id, hash: string, password: string, n: nat)
    requires p.threshold >= 1 && p.lockout > 0 && !p.passwordMatches(hash, password)
    requires AreGuesses(p, states, events, u, hash, password) && n <= |events|
    ensures TriesIn(p, states, events, u, n) == GuessedTries(p, n)
  {
    if n > 0 {
      GuessesAreTries(p, states, events, u, hash, password, n - 1);
      GuessIsTried(p, states[n - 1], events[n - 1], u, hash, password, n - 1);
    }
  }

  /** For every threshold, lockout and number of lockouts there is a run, on an account with a wrong guess to it, that makes as many comparisons as the bound allows. */
  lemma GuessBoundIsReached(p: Policy, u: Id, hash: string, password: string, lockouts: nat) returns (states: seq<State>, events: seq<Event>)
    requires p.threshold >= 1 && p.lockout > 0 && !p.passwordMatches(hash, password)
    ensures IsRun(p, states, events)
    ensures var tries := TriesIn(p, states, events, u, |events|);
      && NoSuccess(tries) && |tries| == p.threshold + lockouts
      && tries[|tries| - 1].at - tries[0].at == lockouts * p.lockout
      && |tries| == p.threshold + (tries[|tries| - 1].at - tries[0].at) / p.lockout
  {
    hide IsRun, AreGuesses, TriesIn;
    states, events := MakeGuesses(p, u, hash, password, p.threshold + lockouts);
    GuessesAreARun(p, states, events, u, hash, password);
    GuessesAreTries(p, states, events, u, hash, password, |events|);
    WholeQuotient(lockouts, p.lockout);
  }

  lemma MakeGuesses(p: Policy, u: Id, hash: string, password: string, count: nat) returns (states: seq<State>, events: seq<Event>)
    requires p.threshold >= 1
    ensures |events| == count && AreGuesses(p, states, events, u, hash, password)
  {
    events := seq(count, i requires 0 <= i < count => Guess(p, u, password, i));
    states := seq(count + 1, i requires 0 <= i <= count => GuessedState(p, u, hash, i));
  }

  lemma WholeQuotient(n: nat, d: int)
    requires d > 0
    ensures n * d / d == n
  {
    QuotientAtLeast(n * d, n, d);
    var q := n * d / d;
    assert q * d <= n * d;
    assert (n + 1) * d == n * d + d;
    if q > n {
      ProductOrder(n + 1, q, d);
      assert false;
    }
  }
}
