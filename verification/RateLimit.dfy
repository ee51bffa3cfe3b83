/** The two fixed-window rate limiters: the in-memory one, and the Redis script on its stand-in. */
module RateLimit {
  import opened Wrappers

  type Ticks = int

  // ----- In memory -----

  datatype Window = Window(count: int, windowEnd: Ticks)

  /** One call against one key's window. */
  function Admit(w: Option<Window>, limit: int, window: Ticks, now: Ticks): (Window, bool) {
    if w.None? || now > w.value.windowEnd then (Window(1, now + window), true)
    else if w.value.count >= limit then (w.value, false)
    else (w.value.(count := w.value.count + 1), true)
  }

  function Entry<V>(m: map<string, V>, key: string): Option<V> {
    if key in m then Some(m[key]) else None
  }

  class InMemoryRateLimiter {
    const limit: int
    const window: Ticks
    var counters: map<string, Window>

    constructor (limit: int, window: Ticks)
      ensures this.limit == limit && this.window == window && counters == map[]
    {
      this.limit, this.window := limit, window;
      counters := map[];
    }

    method Allow(key: string, now: Ticks) returns (ok: bool)
      modifies this
      ensures counters == old(counters)[key := Admit(old(Entry(counters, key)), limit, window, now).0]
      ensures ok == Admit(old(Entry(counters, key)), limit, window, now).1
      ensures !ok ==> counters == old(counters)
    {
      if key !in counters || now > counters[key].windowEnd {
        counters := counters[key := Window(1, now + window)];
        return true;
      }
      var c := counters[key];
      if c.count >= limit {
        assert counters[key := c] == counters;
        return false;
      }
      counters := counters[key := c.(count := c.count + 1)];
      return true;
    }
  }

  // ----- Redis -----

  /** A counter key: how often it was hit, and when it expires if it does. */
  datatype Counter = Counter(hits: nat, expiry: Option<Ticks>)

  function Unexpired(c: Option<Counter>, now: Ticks): Option<Counter> {
    if c.Some? && c.value.expiry.Some? && now >= c.value.expiry.value then None else c
  }

  /** The script on one key: INCR, then PEXPIRE on a first hit or a key without expiry, then the verdict. */
  function RunScript(c: Option<Counter>, limit: int, window: Ticks, now: Ticks): (Counter, bool) {
    var kept := Unexpired(c, now);
    var hits := if kept.Some? then kept.value.hits + 1 else 1;
    var expiry := if kept.None? || hits == 1 || kept.value.expiry.None? then Some(now + window) else kept.value.expiry;
    (Counter(hits, expiry), hits <= limit)
  }

  function CounterAt(counts: map<string, nat>, expiry: map<string, Ticks>, key: string): Option<Counter> {
    if key in counts then Some(Counter(counts[key], Entry(expiry, key))) else None
  }

  /** An argument as the stand-in meets it: one of Go's integers, or a value of another type. */
  datatype ScriptArg = Integer(value: int) | OtherType

  /** The repository's own stand-in for a Redis server. */
  class StandIn {
    var counts: map<string, nat>
    var expiry: map<string, Ticks>

    ghost predicate Valid()
      reads this
    {
      expiry.Keys <= counts.Keys
    }

    constructor ()
      ensures Valid() && counts == map[] && expiry == map[]
    {
      counts, expiry := map[], map[];
    }

    /** What is left of the key's window, -1 when it has no expiry. */
    function Pttl(key: string, now: Ticks): int
      reads this
    {
      if key in expiry then expiry[key] - now else -1
    }

    /** Both arguments must be integers; else nothing is counted and the caller gets an error. */
    method Script(key: string, args: seq<ScriptArg>, now: Ticks) returns (r: Option<bool>)
      requires Valid() && |args| == 2
      modifies this
      ensures Valid()
      ensures r.Some? <==> args[0].Integer? && args[1].Integer?
      ensures r.None? ==> counts == old(counts) && expiry == old(expiry)
      ensures r.Some? ==>
        var (counter, ok) := RunScript(old(CounterAt(counts, expiry, key)), args[1].value, args[0].value, now);
        r.value == ok && CounterAt(counts, expiry, key) == Some(counter)
      ensures forall k | k != key :: CounterAt(counts, expiry, k) == old(CounterAt(counts, expiry, k))
    {
      if !args[0].Integer? {
        return None;
      }
      var window := args[0].value;
      if !args[1].Integer? {
        return None;
      }
      var limit := args[1].value;
      if key in expiry && now >= expiry[key] {
        counts, expiry := counts - {key}, expiry - {key};
      }
      counts := counts[key := if key in counts then counts[key] + 1 else 1];
      var hits := counts[key];
      if hits == 1 || Pttl(key, now) < 0 {
        expiry := expiry[key := now + window];
      }
      return Some(hits <= limit);
    }
  }

  // ----- Runs -----

  datatype Call = Call(key: string, at: Ticks)

  function CountersAfter(limit: int, window: Ticks, calls: seq<Call>): map<string, Window> {
    if calls == [] then map[]
    else
      var (before, c) := (CountersAfter(limit, window, calls[..|calls| - 1]), calls[|calls| - 1]);
      before[c.key := Admit(Entry(before, c.key), limit, window, c.at).0]
  }

  /** Whether the call that follows is admitted. */
  function Admitted(limit: int, window: Ticks, calls: seq<Call>, next: Call): bool {
    Admit(Entry(CountersAfter(limit, window, calls), next.key), limit, window, next.at).1
  }

  function RedisAfter(limit: int, window: Ticks, calls: seq<Call>): map<string, Counter> {
    if calls == [] then map[]
    else
      var (before, c) := (RedisAfter(limit, window, calls[..|calls| - 1]), calls[|calls| - 1]);
      before[c.key := RunScript(Entry(before, c.key), limit, window, c.at).0]
  }

  function RedisAdmitted(limit: int, window: Ticks, calls: seq<Call>, next: Call): bool {
    RunScript(Entry(RedisAfter(limit, window, calls), next.key), limit, window, next.at).1
  }

  // ----- The limiters simulate each other -----

  /** Same window, Redis one tick longer; the in-memory count stops at the limit. */
  predicate Simulates(limit: int, w: Option<Window>, c: Option<Counter>) {
    (w.None? && c.None?)
    || (w.Some? && c.Some? && c.value.hits >= 1
        && w.value.count == Min(c.value.hits, limit)
        && c.value.expiry == Some(w.value.windowEnd + 1))
  }

  lemma {:induction false} CountersSimulate(limit: int, window: Ticks, calls: seq<Call>, key: string)
    requires limit >= 1 && window >= 0
    ensures Simulates(limit, Entry(CountersAfter(limit, window, calls), key), Entry(RedisAfter(limit, window + 1, calls), key))
  {
    if calls != [] {
      var before := calls[..|calls| - 1];
      CountersSimulate(limit, window, before, key);
      CountersSimulate(limit, window, before, calls[|calls| - 1].key);
    }
  }

  /** The in-memory limiter with window W and the Redis one with window W + 1 give the same verdicts, whatever the clock does. */
  lemma SameVerdicts(limit: int, window: Ticks, calls: seq<Call>, next: Call)
    requires limit >= 1 && window >= 0
    ensures Admitted(limit, window, calls, next) == RedisAdmitted(limit, window + 1, calls, next)
  {
    CountersSimulate(limit, window, calls, next.key);
  }

  /** A limit below one admits nothing in Redis; in memory it is a limit of one, since the call that opens a window is never counted. */
  lemma {:induction false} LimitsBelowOne(limit: int, window: Ticks, calls: seq<Call>, next: Call)
    requires limit < 1
    ensures !RedisAdmitted(limit, window, calls, next)
    ensures Admitted(limit, window, calls, next) == Admitted(1, window, calls, next)
  {
    SameCounters(limit, window, calls, next.key);
  }

  lemma {:induction false} SameCounters(limit: int, window: Ticks, calls: seq<Call>, key: string)
    requires limit < 1
    ensures var w := Entry(CountersAfter(limit, window, calls), key);
      w == Entry(CountersAfter(1, window, calls), key) && (w.Some? ==> w.value.count == 1)
  {
    if calls != [] {
      var before := calls[..|calls| - 1];
      SameCounters(limit, window, before, key);
      SameCounters(limit, window, before, calls[|calls| - 1].key);
    }
  }

  /** So the two limiters agree on every run exactly when the limit is positive. */
  lemma VerdictsAgreeIff(limit: int, window: Ticks)
    requires window >= 0
    ensures limit >= 1 <==>
      forall calls, next :: Admitted(limit, window, calls, next) == RedisAdmitted(limit, window + 1, calls, next)
  {
    if limit >= 1 {
      forall calls, next ensures Admitted(limit, window, calls, next) == RedisAdmitted(limit, window + 1, calls, next) {
        SameVerdicts(limit, window, calls, next);
      }
    } else {
      LimitsBelowOne(limit, window + 1, [], Call("", 0));
      assert Admitted(limit, window, [], Call("", 0));
    }
  }

  // ----- A counter without expiry heals -----

  /** The counter of one key after more calls on it. */
  function Hammered(c: Counter, limit: int, window: Ticks, times: seq<Ticks>): Counter
    decreases |times|
  {
    if times == [] then c else Hammered(RunScript(Some(c), limit, window, times[0]).0, limit, window, times[1..])
  }

  lemma {:induction false} HammeringKeepsExpiry(c: Counter, limit: int, window: Ticks, times: seq<Ticks>)
    requires c.hits >= 1 && c.expiry.Some? && forall i | 0 <= i < |times| :: times[i] < c.expiry.value
    ensures Hammered(c, limit, window, times).expiry == c.expiry
    decreases |times|
  {
    if times != [] {
      HammeringKeepsExpiry(RunScript(Some(c), limit, window, times[0]).0, limit, window, times[1..]);
    }
  }

  /** Once a counter with no expiry is called at `first`, a call one window later is admitted, however often it was hit between. */
  lemma StuckCounterHeals(hits: nat, limit: int, window: Ticks, first: Ticks, times: seq<Ticks>, later: Ticks)
    requires limit >= 1 && later >= first + window
    requires forall i | 0 <= i < |times| :: times[i] < first + window
    ensures var armed := RunScript(Some(Counter(hits, None)), limit, window, first).0;
      RunScript(Some(Hammered(armed, limit, window, times)), limit, window, later) == (Counter(1, Some(later + window)), true)
  {
    HammeringKeepsExpiry(RunScript(Some(Counter(hits, None)), limit, window, first).0, limit, window, times);
  }

  // ----- The sliding bound -----

  /** Calls on the key admitted at times from lo to hi. */
  function AdmittedIn(limit: int, window: Ticks, calls: seq<Call>, key: string, lo: Ticks, hi: Ticks): nat {
    if calls == [] then 0
    else
      var (before, c) := (calls[..|calls| - 1], calls[|calls| - 1]);
      AdmittedIn(limit, window, before, key, lo, hi)
      + if c.key == key && lo <= c.at <= hi && Admitted(limit, window, before, c) then 1 else 0
  }

  predicate InOrder(calls: seq<Call>) {
    forall i, j | 0 <= i < j < |calls| :: calls[i].at <= calls[j].at
  }

  /** The call that opened the current window is at its start; a window opens only after the one before it has ended. */
  ghost predicate BoundedByWindow(limit: int, window: Ticks, calls: seq<Call>, key: string) {
    var entry := Entry(CountersAfter(limit, window, calls), key);
    if entry.None? then
      forall lo, hi :: AdmittedIn(limit, window, calls, key, lo, hi) == 0
    else
      var (count, end) := (entry.value.count, entry.value.windowEnd);
      && 1 <= count <= limit
      && calls != [] && end - window <= calls[|calls| - 1].at
      && (forall lo, hi | lo > end :: AdmittedIn(limit, window, calls, key, lo, hi) == 0)
      && (forall lo, hi | lo >= end - window :: AdmittedIn(limit, window, calls, key, lo, hi) <= count)
      && (forall lo, hi | lo > end - window :: AdmittedIn(limit, window, calls, key, lo, hi) <= count - 1)
      && (forall lo, hi | lo >= end - 2 * window :: AdmittedIn(limit, window, calls, key, lo, hi) <= count + limit - 1)
      && (forall lo, hi | hi == lo + window :: AdmittedIn(limit, window, calls, key, lo, hi) <= 2 * limit - 1)
  }

  lemma {:induction false} RunIsBoundedByWindow(limit: int, window: Ticks, calls: seq<Call>, key: string)
    requires limit >= 1 && window >= 0 && InOrder(calls)
    ensures BoundedByWindow(limit, window, calls, key)
  {
    if calls != [] {
      var before, c := calls[..|calls| - 1], calls[|calls| - 1];
      assert calls == before + [c];
      assert before != [] ==> before[|before| - 1] == calls[|before| - 1];
      RunIsBoundedByWindow(limit, window, before, key);
      OneMoreCall(limit, window, before, c, key);
    }
  }

  /** What one more call changes. */
  lemma OneMoreCounts(limit: int, window: Ticks, before: seq<Call>, c: Call, key: string)
    ensures CountersAfter(limit, window, before + [c])
         == CountersAfter(limit, window, before)[c.key := Admit(Entry(CountersAfter(limit, window, before), c.key), limit, window, c.at).0]
    ensures var one := if c.key == key && Admitted(limit, window, before, c) then 1 else 0;
      forall lo, hi ::
        AdmittedIn(limit, window, before + [c], key, lo, hi)
        == AdmittedIn(limit, window, before, key, lo, hi) + if lo <= c.at <= hi then one else 0
  {
    assert (before + [c])[..|before|] == before;
  }

  lemma OneMoreCall(limit: int, window: Ticks, before: seq<Call>, c: Call, key: string)
    requires limit >= 1 && window >= 0 && BoundedByWindow(limit, window, before, key)
    requires before != [] ==> before[|before| - 1].at <= c.at
    ensures BoundedByWindow(limit, window, before + [c], key)
  {
    hide CountersAfter, AdmittedIn;
    var calls := before + [c];
    OneMoreCounts(limit, window, before, c, key);
  }

  /** Any closed interval of length `window` admits fewer than twice the limit on one key, whatever the arrivals. */
  lemma SlidingBound(limit: int, window: Ticks, calls: seq<Call>, key: string, from: Ticks)
    requires limit >= 1 && window >= 0 && InOrder(calls)
    ensures AdmittedIn(limit, window, calls, key, from, from + window) <= 2 * limit - 1
  {
    RunIsBoundedByWindow(limit, window, calls, key);
  }

  /** `n` calls at one moment. */
  function Burst(key: string, at: Ticks, n: nat): seq<Call> {
    if n == 0 then [] else Burst(key, at, n - 1) + [Call(key, at)]
  }

  lemma {:induction false} BurstIsAtOnce(key: string, at: Ticks, n: nat)
    ensures |Burst(key, at, n)| == n && forall i | 0 <= i < n :: Burst(key, at, n)[i].at == at
  {
    if n > 0 {
      BurstIsAtOnce(key, at, n - 1);
    }
  }

  /** Calls at one moment inside a window are admitted until its count is full. */
  lemma {:induction false} BurstIsAdmitted(limit: int, window: Ticks, before: seq<Call>, key: string, at: Ticks, n: nat, w: Window, lo: Ticks, hi: Ticks)
    requires Entry(CountersAfter(limit, window, before), key) == Some(w)
    requires at <= w.windowEnd && w.count + n <= limit && lo <= at <= hi
    ensures Entry(CountersAfter(limit, window, before + Burst(key, at, n)), key) == Some(w.(count := w.count + n))
    ensures AdmittedIn(limit, window, before + Burst(key, at, n), key, lo, hi) == AdmittedIn(limit, window, before, key, lo, hi) + n
  {
    hide CountersAfter, AdmittedIn;
    if n == 0 {
      assert before + Burst(key, at, n) == before;
    } else {
      BurstIsAdmitted(limit, window, before, key, at, n - 1, w, lo, hi);
      OneMoreCounts(limit, window, before + Burst(key, at, n - 1), Call(key, at), key);
      assert before + Burst(key, at, n) == before + Burst(key, at, n - 1) + [Call(key, at)];
    }
  }

  /** A call at 0, the rest of its window's calls as that window ends, and a whole window's calls one tick later. */
  function TightRun(limit: int, window: Ticks, key: string): seq<Call>
    requires limit >= 1
  {
    [] + [Call(key, 0)] + Burst(key, window, limit - 1) + [Call(key, window + 1)] + Burst(key, window + 1, limit - 1)
  }

  lemma TightRunIsInOrder(limit: int, window: Ticks, key: string)
    requires limit >= 1 && window >= 1
    ensures InOrder(TightRun(limit, window, key))
  {
    BurstIsAtOnce(key, window, limit - 1);
    BurstIsAtOnce(key, window + 1, limit - 1);
  }

  lemma NoCalls(limit: int, window: Ticks, key: string, lo: Ticks, hi: Ticks)
    ensures Entry(CountersAfter(limit, window, []), key) == None
    ensures AdmittedIn(limit, window, [], key, lo, hi) == 0
  {
  }

  /** The bound is reached: the interval from tick 1 on admits all of them but the first. */
  lemma SlidingBoundIsReached(limit: int, window: Ticks, key: string)
    requires limit >= 1 && window >= 1
    ensures InOrder(TightRun(limit, window, key))
    ensures AdmittedIn(limit, window, TightRun(limit, window, key), key, 1, 1 + window) == 2 * limit - 1
  {
    hide CountersAfter, AdmittedIn, Burst;
    TightRunIsInOrder(limit, window, key);
    var first: seq<Call> := [] + [Call(key, 0)];
    var full := first + Burst(key, window, limit - 1);
    NoCalls(limit, window, key, 1, 1 + window);
    OneMoreCounts(limit, window, [], Call(key, 0), key);
    BurstIsAdmitted(limit, window, first, key, window, limit - 1, Window(1, window), 1, 1 + window);
    OneMoreCounts(limit, window, full, Call(key, window + 1), key);
    BurstIsAdmitted(limit, window, full + [Call(key, window + 1)], key, window + 1, limit - 1, Window(1, window + 1 + window), 1, 1 + window);
  }

  /** A denied call leaves every counter as it was, so it postpones no window; other keys' calls leave this one's. */
  lemma DenialPostponesNothing(limit: int, window: Ticks, calls: seq<Call>, next: Call, key: string)
    requires !Admitted(limit, window, calls, next) || next.key != key
    ensures Entry(CountersAfter(limit, window, calls + [next]), key) == Entry(CountersAfter(limit, window, calls), key)
  {
    assert (calls + [next])[..|calls|] == calls;
  }
}
