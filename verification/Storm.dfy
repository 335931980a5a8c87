/** Admission control of the heavy endpoints: a token bucket per user and one
    per session, and safe mode after a burst of refusals. Times and token
    counts are exact reals; one call reads the clock once. */
module Storm {
  import opened Text

  const SAFE_MODE: real := 120.0
  const EVENT_WINDOW: real := 120.0
  const EVENT_THRESHOLD: nat := 24

  datatype Scope = UserScope | SessionScope

  datatype BucketKey = BucketKey(scope: Scope, endpoint: string, key: string)

  datatype Bucket = Bucket(tokens: real, last: real)

  datatype Budget = Budget(cap: nat, window: nat)

  datatype Guard = Guard(buckets: map<BucketKey, Bucket>, safeUntil: map<string, real>, events: map<string, seq<real>>)

  datatype Reason = Admitted | SafeMode | UserBudget | SessionBudget

  datatype Verdict = Verdict(ok: bool, retry: int, reason: Reason)

  function UserBudgetOf(endpoint: string): (b: Budget)
    ensures b.cap >= 1 && b.window >= 1
  {
    if endpoint == "login" then Budget(10, 60)
    else if endpoint == "ws_ticket" then Budget(30, 60)
    else if endpoint == "pin_list" then Budget(20, 60)
    else if endpoint == "pending_fetch" then Budget(35, 60)
    else Budget(20, 60)
  }

  function SessionBudgetOf(endpoint: string): (b: Budget)
    ensures b.cap >= 1 && b.window >= 1
  {
    if endpoint == "login" then Budget(6, 60)
    else if endpoint == "ws_ticket" then Budget(16, 60)
    else if endpoint == "pin_list" then Budget(10, 60)
    else if endpoint == "pending_fetch" then Budget(18, 60)
    else Budget(10, 60)
  }

  function BudgetOf(k: BucketKey): (b: Budget)
    ensures b.cap >= 1 && b.window >= 1
  {
    if k.scope == UserScope then UserBudgetOf(k.endpoint) else SessionBudgetOf(k.endpoint)
  }

  function Cap(k: BucketKey): real {
    BudgetOf(k).cap as real
  }

  function Rate(k: BucketKey): (r: real)
    ensures r > 0.0
  {
    BudgetOf(k).cap as real / BudgetOf(k).window as real
  }

  function MinR(a: real, b: real): real {
    if a <= b then a else b
  }

  function MaxR(a: real, b: real): real {
    if a >= b then a else b
  }

  /** int(x) for x >= 0. */
  function Trunc(x: real): int {
    x.Floor
  }

  function NormKey(value: string, fallback: string): string {
    if Strip(value) == "" then fallback else Strip(value)
  }

  function UserKey(endpoint: string, user: string): BucketKey {
    BucketKey(UserScope, endpoint, NormKey(user, "anonymous_user"))
  }

  function SessionKey(endpoint: string, session: string): BucketKey {
    BucketKey(SessionScope, endpoint, NormKey(session, "anonymous_session"))
  }

  // ---------- One bucket ----------

  function Refill(tokens: real, elapsed: real, cap: real, rate: real): real {
    MinR(cap, tokens + MaxR(0.0, elapsed) * rate)
  }

  /** The tokens a call at time t would find. */
  function Level(g: Guard, k: BucketKey, t: real): real {
    if k in g.buckets then Refill(g.buckets[k].tokens, t - g.buckets[k].last, Cap(k), Rate(k)) else Cap(k)
  }

  function Hint(level: real, rate: real): int
    requires rate > 0.0
  {
    Trunc(MaxR(1.0, (1.0 - level) / rate))
  }

  function Take(g: Guard, k: BucketKey, t: real): (Guard, bool, int) {
    var level := Level(g, k, t);
    if level >= 1.0 then (g.(buckets := g.buckets[k := Bucket(level - 1.0, t)]), true, 0)
    else (g.(buckets := g.buckets[k := Bucket(level, t)]), false, Hint(level, Rate(k)))
  }

  // ---------- Safe mode ----------

  function EventsOf(g: Guard, user: string): seq<real> {
    if user in g.events then g.events[user] else []
  }

  function Since(events: seq<real>, cutoff: real): seq<real> {
    if events == [] then []
    else Since(events[..|events| - 1], cutoff) + if events[|events| - 1] >= cutoff then [events[|events| - 1]] else []
  }

  function Record(g: Guard, user: string, t: real): Guard {
    if user == "" then g
    else
      var recent := Since(EventsOf(g, user), t - EVENT_WINDOW) + [t];
      g.(events := g.events[user := recent],
         safeUntil := if |recent| >= EVENT_THRESHOLD then g.safeUntil[user := t + SAFE_MODE] else g.safeUntil)
  }

  predicate InSafeMode(g: Guard, user: string, t: real) {
    user != "" && user in g.safeUntil && t < g.safeUntil[user]
  }

  /** Leaving safe mode forgets the user's events. */
  function Release(g: Guard, user: string, t: real): Guard {
    if user != "" && user in g.safeUntil && t >= g.safeUntil[user] then
      g.(safeUntil := g.safeUntil - {user}, events := g.events - {user})
    else g
  }

  function Allow(g: Guard, endpoint: string, user: string, session: string, t: real): (Guard, Verdict) {
    if InSafeMode(g, user, t) then (g, Verdict(false, Trunc(MaxR(1.0, g.safeUntil[user] - t)), SafeMode))
    else
      var g0 := Release(g, user, t);
      var (g1, okUser, retryUser) := Take(g0, UserKey(endpoint, user), t);
      if !okUser then (Record(g1, user, t), Verdict(false, retryUser, UserBudget))
      else
        var (g2, okSession, retrySession) := Take(g1, SessionKey(endpoint, session), t);
        if !okSession then (Record(g2, user, t), Verdict(false, retrySession, SessionBudget))
        else (g2, Verdict(true, 0, Admitted))
  }

  // ---------- Refill and hint ----------

  /** Refilling over a and then over b is refilling once over a + b. */
  lemma RefillComposes(x: real, a: real, b: real, cap: real, rate: real)
    requires a >= 0.0 && b >= 0.0 && rate >= 0.0
    ensures Refill(Refill(x, a, cap, rate), b, cap, rate) == Refill(x, a + b, cap, rate)
  {
    assert (a + b) * rate == a * rate + b * rate;
    assert b * rate >= 0.0 && a * rate >= 0.0;
  }

  predicate Clocked(g: Guard, t: real) {
    forall k :: k in g.buckets ==> g.buckets[k].last <= t && 0.0 <= g.buckets[k].tokens <= Cap(k)
  }

  lemma RefillGrows(x: real, a: real, b: real, cap: real, rate: real)
    requires 0.0 <= x <= cap && a >= 0.0 && b >= 0.0 && rate >= 0.0
    ensures 0.0 <= Refill(x, a, cap, rate) <= Refill(x, a + b, cap, rate) <= cap
    ensures Refill(x, a + b, cap, rate) <= Refill(x, a, cap, rate) + b * rate
  {
    assert (a + b) * rate == a * rate + b * rate;
    assert b * rate >= 0.0 && a * rate >= 0.0;
  }

  /** The level only grows while nobody calls, at the refill rate at most. */
  lemma LevelGrows(g: Guard, k: BucketKey, t: real, later: real)
    requires Clocked(g, t) && t <= later
    ensures 0.0 <= Level(g, k, t) <= Level(g, k, later) <= Cap(k)
    ensures Level(g, k, later) == Refill(Level(g, k, t), later - t, Cap(k), Rate(k))
    ensures Level(g, k, later) <= Level(g, k, t) + (later - t) * Rate(k)
  {
    hide Rate, Cap, Refill;
    var cap := Cap(k);
    if k in g.buckets {
      var b := g.buckets[k];
      RefillComposes(b.tokens, t - b.last, later - t, cap, Rate(k));
      RefillGrows(b.tokens, t - b.last, later - t, cap, Rate(k));
      assert t - b.last + (later - t) == later - b.last;
    } else {
      FullStays(cap, later - t, Rate(k));
      CapPositive(k);
    }
  }

  lemma FullStays(cap: real, a: real, rate: real)
    requires a >= 0.0 && rate >= 0.0
    ensures Refill(cap, a, cap, rate) == cap && a * rate >= 0.0
  {
    assert a * rate >= 0.0;
  }

  lemma CapPositive(k: BucketKey)
    ensures Cap(k) >= 1.0
  {
  }

  /** A call spends one token exactly when it finds one. A refused call changes nothing that any later
      call can see, and no call moves another bucket. */
  lemma TakeLevels(g: Guard, k: BucketKey, t: real, other: BucketKey, later: real)
    requires Clocked(g, t) && t <= later
    ensures var (g', ok, retry) := Take(g, k, t);
            && (ok <==> Level(g, k, t) >= 1.0)
            && Clocked(g', t)
            && (ok ==> Level(g', k, t) == Level(g, k, t) - 1.0)
            && (!ok || other != k ==> Level(g', other, later) == Level(g, other, later))
  {
    hide Rate, Cap, Refill, Hint;
    LevelGrows(g, k, t, later);
    FreshLevel(Level(g, k, t), k);
  }

  lemma FreshLevel(level: real, k: BucketKey)
    requires 0.0 <= level <= Cap(k)
    ensures Refill(level, 0.0, Cap(k), Rate(k)) == level
    ensures level >= 1.0 ==> Refill(level - 1.0, 0.0, Cap(k), Rate(k)) == level - 1.0
  {
  }

  // ---------- The retry hint ----------

  /** The seconds until the bucket holds a whole token. */
  function Wait(level: real, rate: real): real
    requires rate > 0.0
  {
    (1.0 - level) / rate
  }

  lemma WaitExact(level: real, a: real, cap: real, rate: real)
    requires 0.0 <= level < 1.0 <= cap && rate > 0.0 && a >= 0.0
    ensures Refill(level, a, cap, rate) >= 1.0 <==> a >= Wait(level, rate)
  {
    var w := Wait(level, rate);
    assert w * rate == 1.0 - level;
    if a >= w {
      assert (a - w) * rate >= 0.0;
      assert a * rate == (a - w) * rate + w * rate;
    } else {
      assert (w - a) * rate > 0.0;
      assert w * rate == (w - a) * rate + a * rate;
    }
  }

  /** After a refusal with hint r, one second more than the hint is always enough when nobody else spends from
      the bucket; the hint alone is enough exactly when truncation lost nothing, that is, when the
      wait is at most a second or a whole number of seconds. */
  lemma HintSuffices(g: Guard, k: BucketKey, t: real)
    requires Clocked(g, t) && !Take(g, k, t).1
    ensures var (g', _, r) := Take(g, k, t);
            var w := Wait(Level(g, k, t), Rate(k));
            && r >= 1
            && Take(g', k, t + r as real + 1.0).1
            && (Take(g', k, t + r as real).1 <==> w <= 1.0 || w == Trunc(w) as real)
  {
    hide Rate, Cap, Refill;
    var (g', ok, r) := Take(g, k, t);
    var level := Level(g, k, t);
    TakeLevels(g, k, t, k, t + r as real);
    TakeLevels(g, k, t, k, t + r as real + 1.0);
    LevelGrows(g, k, t, t + r as real);
    LevelGrows(g, k, t, t + r as real + 1.0);
    LevelGrows(g, k, t, t);
    CapPositive(k);
    WaitExact(level, r as real, Cap(k), Rate(k));
    WaitExact(level, r as real + 1.0, Cap(k), Rate(k));
  }

  /** A session's six logins a minute refill one token in 10 s: half a second after the bucket was
      emptied the hint is 9 s for a wait of 9.5 s, and a call 9 s later is refused again. */
  lemma HintTooShort(k: BucketKey)
    requires k == SessionKey("login", "s")
    ensures var g := Guard(map[k := Bucket(0.0, 0.0)], map[], map[]);
            && Take(g, k, 0.5).2 == 9 && !Take(g, k, 0.5).1
            && !Take(Take(g, k, 0.5).0, k, 9.5).1
  {
    assert Rate(k) == 0.1;
  }

  // ---------- Refused calls leave no trace in the bucket ----------

  function Play(g: Guard, k: BucketKey, times: seq<real>): Guard {
    if times == [] then g else Take(Play(g, k, times[..|times| - 1]), k, times[|times| - 1]).0
  }

  /** The calls of the sequence that got a token. */
  function Served(g: Guard, k: BucketKey, times: seq<real>): seq<real> {
    if times == [] then []
    else
      var before, t := times[..|times| - 1], times[|times| - 1];
      Served(g, k, before) + if Take(Play(g, k, before), k, t).1 then [t] else []
  }

  predicate Later(times: seq<real>, start: real) {
    && (forall i :: 0 <= i < |times| ==> start <= times[i])
    && (forall i, j :: 0 <= i < j < |times| ==> times[i] <= times[j])
  }

  function Last(times: seq<real>, start: real): real {
    if times == [] then start else times[|times| - 1]
  }

  ghost predicate SameFrom(g: Guard, g': Guard, k: BucketKey, t: real) {
    forall later :: t <= later ==> Level(g, k, later) == Level(g', k, later)
  }

  lemma TakeSame(g: Guard, g': Guard, k: BucketKey, t: real)
    requires Clocked(g, t) && Clocked(g', t) && SameFrom(g, g', k, t)
    ensures Take(g, k, t).1 == Take(g', k, t).1
    ensures SameFrom(Take(g, k, t).0, Take(g', k, t).0, k, t)
    ensures !Take(g, k, t).1 ==> SameFrom(Take(g, k, t).0, g', k, t)
  {
    hide Rate, Cap, Refill;
    var h, h' := Take(g, k, t).0, Take(g', k, t).0;
    assert Level(g, k, t) == Level(g', k, t);
    forall later | t <= later
      ensures Level(h, k, later) == Level(h', k, later) && (!Take(g, k, t).1 ==> Level(h, k, later) == Level(g', k, later))
    {
      TakeLevels(g, k, t, k, later);
      TakeLevels(g', k, t, k, later);
    }
  }

  /** Leaving the refused calls out changes no decision: the remaining calls are all served, and the bucket is the same afterwards. */
  lemma {:induction false} RefusedInvisible(g: Guard, k: BucketKey, times: seq<real>, start: real)
    requires Clocked(g, start) && Later(times, start)
    ensures Later(Served(g, k, times), start) && Last(Served(g, k, times), start) <= Last(times, start)
    ensures Served(g, k, Served(g, k, times)) == Served(g, k, times)
    ensures var h, h' := Play(g, k, times), Play(g, k, Served(g, k, times));
            var end := Last(times, start);
            Clocked(h, end) && Clocked(h', end) && SameFrom(h, h', k, end)
  {
    if times != [] {
      var before, t := times[..|times| - 1], times[|times| - 1];
      var served, end := Served(g, k, before), Last(before, start);
      assert times == before + [t];
      assert Served(g, k, times) == if Take(Play(g, k, before), k, t).1 then served + [t] else served;
      assert Last(times, start) == t && Last(served + [t], start) == t;
      hide *;
      LaterMore(before, t, start);
      RefusedInvisible(g, k, before, start);
      LaterMore(served, t, start);
      ServeOneMore(g, k, before, served, t, end);
    }
  }

  lemma LaterMore(before: seq<real>, t: real, start: real)
    ensures Later(before + [t], start) <==> Later(before, start) && Last(before, start) <= t && start <= t
    ensures Later(before, start) ==> start <= Last(before, start)
  {
    if Later(before, start) && Last(before, start) <= t {
      assert forall i :: 0 <= i < |before| ==> before[i] <= t;
    }
    if Later(before + [t], start) {
      var all := before + [t];
      assert all[|before|] == t;
      assert forall i :: 0 <= i < |before| ==> all[i] == before[i];
    }
  }

  /** The next call sees the same bucket with and without the refused calls before it. */
  lemma ServeOneMore(g: Guard, k: BucketKey, times: seq<real>, served: seq<real>, t: real, end: real)
    requires Clocked(Play(g, k, times), end) && Clocked(Play(g, k, served), end) && end <= t
    requires SameFrom(Play(g, k, times), Play(g, k, served), k, end) && Served(g, k, served) == served
    ensures var served' := if Take(Play(g, k, times), k, t).1 then served + [t] else served;
            && Served(g, k, served') == served'
            && Clocked(Play(g, k, times + [t]), t) && Clocked(Play(g, k, served'), t)
            && SameFrom(Play(g, k, times + [t]), Play(g, k, served'), k, t)
  {
    var h, h' := Play(g, k, times), Play(g, k, served);
    assert (times + [t])[..|times|] == times;
    assert (served + [t])[..|served|] == served;
    ClockedLater(h, end, t);
    ClockedLater(h', end, t);
    TakeSame(h, h', k, t);
    hide Take, Level, Clocked;
    TakeLevels(h, k, t, k, t);
    TakeLevels(h', k, t, k, t);
  }

  lemma ClockedLater(g: Guard, t: real, later: real)
    requires Clocked(g, t) && t <= later
    ensures Clocked(g, later)
  {
  }

  /** What a call does, from what can be known before it: it is admitted exactly when the user is not in safe mode
      and both buckets hold a token; the session pays exactly then, but the user pays whenever the user's own
      bucket holds a token. */
  lemma AllowOutcome(g: Guard, endpoint: string, user: string, session: string, t: real)
    requires Clocked(g, t)
    ensures var k, k' := UserKey(endpoint, user), SessionKey(endpoint, session);
            var (g', v) := Allow(g, endpoint, user, session, t);
            && Clocked(g', t)
            && (v.ok <==> !InSafeMode(g, user, t) && Level(g, k, t) >= 1.0 && Level(g, k', t) >= 1.0)
            && Level(g', k, t) == Level(g, k, t) - (if !InSafeMode(g, user, t) && Level(g, k, t) >= 1.0 then 1.0 else 0.0)
            && Level(g', k', t) == Level(g, k', t) - (if v.ok then 1.0 else 0.0)
  {
    hide Rate, Cap, Refill, Hint, Since, Clocked;
    var k, k' := UserKey(endpoint, user), SessionKey(endpoint, session);
    var g0 := Release(g, user, t);
    var g1 := Take(g0, k, t).0;
    var g2 := Take(g1, k', t).0;
    SameClock(g, g0, t);
    TakeLevels(g0, k, t, k, t);
    TakeLevels(g0, k, t, k', t);
    TakeLevels(g1, k', t, k, t);
    TakeLevels(g1, k', t, k', t);
    SameClock(g1, Record(g1, user, t), t);
    SameClock(g2, Record(g2, user, t), t);
  }

  lemma SameClock(g: Guard, g': Guard, t: real)
    requires g'.buckets == g.buckets
    ensures Clocked(g, t) <==> Clocked(g', t)
  {
  }

  /** A refused call is not always without trace: it costs the user a token exactly when the user is not in safe
      mode and the user's bucket held one, so that it was the session's bucket that refused. */
  lemma RefusalSpends(g: Guard, endpoint: string, user: string, session: string, t: real)
    requires Clocked(g, t) && !Allow(g, endpoint, user, session, t).1.ok
    ensures var k, k', g' := UserKey(endpoint, user), SessionKey(endpoint, session), Allow(g, endpoint, user, session, t).0;
            && (Level(g', k, t) != Level(g, k, t) <==> !InSafeMode(g, user, t) && Level(g, k, t) >= 1.0)
            && (Level(g', k, t) != Level(g, k, t) ==> Level(g, k', t) < 1.0 && Level(g', k, t) == Level(g, k, t) - 1.0)
  {
    hide *;
    AllowOutcome(g, endpoint, user, session, t);
  }
}
