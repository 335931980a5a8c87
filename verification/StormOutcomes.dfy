/** Admission control in terms of the names and times of the calls: who shares
    a budget with whom, what a caller is always granted, and when safe mode begins. */
module StormOutcomes {
  import opened Text
  import opened Storm
  import opened StormRuns

  // ---------- Who shares a bucket ----------

  /** Names count without the blanks around them, and a blank name is the anonymous one. */
  predicate SameName(a: string, b: string, anonymous: string) {
    Strip(a) == Strip(b) || (Strip(a) in {"", anonymous} && Strip(b) in {"", anonymous})
  }

  predicate SameUser(u: string, v: string) {
    SameName(u, v, "anonymous_user")
  }

  predicate SameSession(r: string, s: string) {
    SameName(r, s, "anonymous_session")
  }

  /** Two calls share a user bucket exactly if endpoint and user are the same, a session bucket exactly if endpoint and
      session are, and no user bucket is a session bucket. */
  lemma BucketsExactly(e: string, u: string, s: string, e': string, u': string, s': string)
    ensures UserKey(e, u) == UserKey(e', u') <==> e == e' && SameUser(u, u')
    ensures SessionKey(e, s) == SessionKey(e', s') <==> e == e' && SameSession(s, s')
    ensures UserKey(e, u) != SessionKey(e', s')
  {
    hide Strip;
  }

  lemma OtherBucket(g: Guard, e: string, u: string, s: string, t: real, k: BucketKey)
    requires k != UserKey(e, u) && k != SessionKey(e, s)
    ensures var g' := Allow(g, e, u, s, t).0;
            (k in g'.buckets <==> k in g.buckets) && (k in g.buckets ==> g'.buckets[k] == g.buckets[k])
  {
    hide UserKey, SessionKey, Level, Hint, Since;
  }

  lemma SameBucketLevel(g: Guard, g': Guard, k: BucketKey, t: real)
    requires (k in g'.buckets <==> k in g.buckets) && (k in g.buckets ==> g'.buckets[k] == g.buckets[k])
    ensures Level(g', k, t) == Level(g, k, t)
  {
  }

  /** A call moves no bucket of another user or endpoint, no bucket of another session or endpoint, and neither safe mode nor
      the events of another user. */
  lemma ForeignCall(g: Guard, e: string, u: string, s: string, t: real, e': string, u': string, s': string, later: real)
    ensures var g' := Allow(g, e, u, s, t).0;
            && (e != e' || !SameUser(u, u') ==> Level(g', UserKey(e', u'), later) == Level(g, UserKey(e', u'), later))
            && (e != e' || !SameSession(s, s') ==> Level(g', SessionKey(e', s'), later) == Level(g, SessionKey(e', s'), later))
            && (u != u' ==>
                  && EventsOf(g', u') == EventsOf(g, u') && (u' in g'.safeUntil <==> u' in g.safeUntil)
                  && (u' in g.safeUntil ==> g'.safeUntil[u'] == g.safeUntil[u']))
  {
    BucketsExactly(e, u, s, e', u', s');
    BucketsExactly(e', u', s', e, u, s);
    OtherUser(g, e, u, s, t, u');
    var g' := Allow(g, e, u, s, t).0;
    hide Allow, UserKey, SessionKey, Level, SameUser, SameSession;
    if e != e' || !SameUser(u, u') {
      OtherBucket(g, e, u, s, t, UserKey(e', u'));
      SameBucketLevel(g, g', UserKey(e', u'), later);
    }
    if e != e' || !SameSession(s, s') {
      OtherBucket(g, e, u, s, t, SessionKey(e', s'));
      SameBucketLevel(g, g', SessionKey(e', s'), later);
    }
  }

  lemma OtherUser(g: Guard, e: string, u: string, s: string, t: real, v: string)
    ensures var g' := Allow(g, e, u, s, t).0;
            u != v ==> EventsOf(g', v) == EventsOf(g, v) && (v in g'.safeUntil <==> v in g.safeUntil)
                       && (v in g.safeUntil ==> g'.safeUntil[v] == g.safeUntil[v])
  {
    hide UserKey, SessionKey, Level, Hint, Since;
  }

  // ---------- What everybody is granted ----------

  /** Calls a minute that an endpoint grants a user, and at once when none was made before. */
  function UserLimit(endpoint: string): nat {
    match endpoint
    case "login" => 10
    case "ws_ticket" => 30
    case "pin_list" => 20
    case "pending_fetch" => 35
    case _ => 20
  }

  function SessionLimit(endpoint: string): nat {
    match endpoint
    case "login" => 6
    case "ws_ticket" => 16
    case "pin_list" => 10
    case "pending_fetch" => 18
    case _ => 10
  }

  lemma Limits(e: string, u: string, s: string)
    ensures Cap(UserKey(e, u)) == UserLimit(e) as real && Rate(UserKey(e, u)) == UserLimit(e) as real / 60.0
    ensures Cap(SessionKey(e, s)) == SessionLimit(e) as real && Rate(SessionKey(e, s)) == SessionLimit(e) as real / 60.0
  {
    hide NormKey;
  }

  /** The earlier calls of the user at the endpoint, admitted or not. */
  function UserCalls(run: seq<Call>, n: nat, e: string, u: string): nat
    requires n <= |run|
  {
    if n == 0 then 0
    else UserCalls(run, n - 1, e, u) + if run[n - 1].Heavy? && run[n - 1].endpoint == e && SameUser(run[n - 1].user, u) then 1 else 0
  }

  function SessionCalls(run: seq<Call>, n: nat, e: string, s: string): nat
    requires n <= |run|
  {
    if n == 0 then 0
    else SessionCalls(run, n - 1, e, s)
         + if run[n - 1].Heavy? && run[n - 1].endpoint == e && SameSession(run[n - 1].session, s) then 1 else 0
  }

  /** A call takes one token at most, and only from its own two buckets. */
  lemma StepLowers(g: Guard, c: Call, key: BucketKey)
    requires Clocked(g, c.at)
    ensures Level(Step(g, c), key, c.at) >= Level(g, key, c.at) - (if ChargedTo(c, key) then 1.0 else 0.0)
  {
    hide Allow, Level, UserKey, SessionKey;
    if c.Heavy? {
      AllowOutcome(g, c.endpoint, c.user, c.session, c.at);
      if !ChargedTo(c, key) {
        OtherBucket(g, c.endpoint, c.user, c.session, c.at, key);
      }
    }
    if !ChargedTo(c, key) {
      NoCharge(g, c, key);
    }
  }

  lemma NoCharge(g: Guard, c: Call, key: BucketKey)
    requires !ChargedTo(c, key)
    ensures Level(Step(g, c), key, c.at) == Level(g, key, c.at)
  {
    hide Allow, Level, UserKey, SessionKey;
    if c.Heavy? {
      OtherBucket(g, c.endpoint, c.user, c.session, c.at, key);
    }
    SameBucketLevel(g, Step(g, c), key, c.at);
  }

  lemma {:induction false} UserLevel(run: seq<Call>, n: nat, e: string, u: string)
    requires Timed(run) && n < |run|
    ensures Level(At(run, n), UserKey(e, u), run[n].at) >= UserLimit(e) as real - UserCalls(run, n, e, u) as real
  {
    Limits(e, u, "");
    hide Level, Step, UserKey, SessionKey, UserLimit, Cap, Rate, SameUser;
    if n == 0 {
      FullAtFirst(run, UserKey(e, u));
    } else {
      UserLevel(run, n - 1, e, u);
      LevelNext(run, n - 1, UserKey(e, u));
      var c := run[n - 1];
      if c.Heavy? {
        BucketsExactly(e, u, "", c.endpoint, c.user, c.session);
        SameUserBoth(u, c.user);
      }
    }
  }

  lemma SameUserBoth(u: string, v: string)
    ensures SameUser(u, v) <==> SameUser(v, u)
    ensures SameSession(u, v) <==> SameSession(v, u)
  {
  }

  lemma {:induction false} SessionLevel(run: seq<Call>, n: nat, e: string, s: string)
    requires Timed(run) && n < |run|
    ensures Level(At(run, n), SessionKey(e, s), run[n].at) >= SessionLimit(e) as real - SessionCalls(run, n, e, s) as real
  {
    Limits(e, "", s);
    hide Level, Step, UserKey, SessionKey, SessionLimit, Cap, Rate, SameSession;
    if n == 0 {
      FullAtFirst(run, SessionKey(e, s));
    } else {
      SessionLevel(run, n - 1, e, s);
      LevelNext(run, n - 1, SessionKey(e, s));
      var c := run[n - 1];
      if c.Heavy? {
        BucketsExactly(e, "", s, c.endpoint, c.user, c.session);
        BucketsExactly(c.endpoint, c.user, c.session, e, "", s);
        SameUserBoth(s, c.session);
      }
    }
  }

  lemma FullAtFirst(run: seq<Call>, key: BucketKey)
    requires |run| > 0
    ensures Level(At(run, 0), key, run[0].at) == Cap(key)
  {
  }

  lemma LevelNext(run: seq<Call>, n: nat, key: BucketKey)
    requires Timed(run) && n + 1 < |run|
    ensures Level(At(run, n + 1), key, run[n + 1].at) >= Level(At(run, n), key, run[n].at) - (if ChargedTo(run[n], key) then 1.0 else 0.0)
  {
    hide Level, Step, Clocked, ChargedTo;
    ClockedAt(run, n);
    StepLowers(At(run, n), run[n], key);
    ClockedAfter(run, n);
    LevelGrows(At(run, n + 1), key, run[n].at, run[n + 1].at);
  }

  /** Everybody's budget is his own: a caller outside safe mode, who has called this endpoint less often than it grants a user, from
      a session that has called it less often than it grants a session, is admitted, whatever everybody else does. */
  lemma OwnBudget(run: seq<Call>, k: nat)
    requires Timed(run) && k < |run| && run[k].Heavy?
    requires run[k].user == "" || run[k].user !in At(run, k).safeUntil || At(run, k).safeUntil[run[k].user] <= run[k].at
    requires UserCalls(run, k, run[k].endpoint, run[k].user) < UserLimit(run[k].endpoint)
    requires SessionCalls(run, k, run[k].endpoint, run[k].session) < SessionLimit(run[k].endpoint)
    ensures Admits(run, k)
  {
    var c := run[k];
    UserLevel(run, k, c.endpoint, c.user);
    SessionLevel(run, k, c.endpoint, c.session);
    ClockedAt(run, k);
    hide Level, At, Allow, Clocked, UserCalls, SessionCalls, UserLimit, SessionLimit;
    AllowOutcome(At(run, k), c.endpoint, c.user, c.session, c.at);
  }

  /** And nobody gets more than an endpoint grants a minute, but for the burst at the beginning. */
  lemma EndpointBound(run: seq<Call>, e: string, u: string, s: string, i: nat, j: nat)
    requires Timed(run) && i < j <= |run|
    ensures var minutes := (run[j - 1].at - run[i].at) / 60.0;
            && Count(run, UserKey(e, u), i, j) as real <= UserLimit(e) as real * (1.0 + minutes)
            && Count(run, SessionKey(e, s), i, j) as real <= SessionLimit(e) as real * (1.0 + minutes)
  {
    hide Count, UserLimit, SessionLimit, UserKey, SessionKey, Cap, Rate;
    BudgetBound(run, UserKey(e, u), i, j);
    BudgetBound(run, SessionKey(e, s), i, j);
    Limits(e, u, s);
    var T := run[j - 1].at - run[i].at;
    PerMinute(UserLimit(e) as real, T);
    PerMinute(SessionLimit(e) as real, T);
  }

  lemma PerMinute(limit: real, T: real)
    ensures limit + T * (limit / 60.0) == limit * (1.0 + T / 60.0)
  {
  }

  // ---------- The reason of a refusal, and what its hint is worth ----------

  /** A refusal names what refused, safe mode before the user's budget before the session's, and one second more
      than its hint clears that. */
  lemma RetryHint(g: Guard, e: string, u: string, s: string, t: real)
    requires Clocked(g, t) && !Allow(g, e, u, s, t).1.ok
    ensures var (g', v) := Allow(g, e, u, s, t);
            var safe := u != "" && u in g.safeUntil && t < g.safeUntil[u];
            && v.retry >= 1
            && (v.reason == SafeMode <==> safe)
            && (v.reason == UserBudget <==> !safe && Level(g, UserKey(e, u), t) < 1.0)
            && (v.reason == SafeMode ==> g' == g && g.safeUntil[u] <= t + v.retry as real + 1.0)
            && (v.reason == UserBudget ==> Level(g', UserKey(e, u), t + v.retry as real + 1.0) >= 1.0)
            && (v.reason == SessionBudget ==> Level(g', SessionKey(e, s), t + v.retry as real + 1.0) >= 1.0)
            && v.reason != Admitted
  {
    hide Level, UserKey, SessionKey, Since, Hint, Clocked;
    if !InSafeMode(g, u, t) {
      var k, k' := UserKey(e, u), SessionKey(e, s);
      var g0 := Release(g, u, t);
      var g1 := Take(g0, k, t).0;
      SameClock(g, g0, t);
      SameBucketLevel(g, g0, k, t);
      TakeLevels(g0, k, t, k, t);
      if !Take(g0, k, t).1 {
        HintSuffices(g0, k, t);
        HintOf(g0, k, t);
      } else {
        HintSuffices(g1, k', t);
        HintOf(g1, k', t);
      }
    }
  }

  /** Recording the refusal changes no bucket. */
  lemma HintOf(g: Guard, k: BucketKey, t: real)
    requires Clocked(g, t) && !Take(g, k, t).1 && Take(g, k, t).2 >= 1
    requires Take(Take(g, k, t).0, k, t + Take(g, k, t).2 as real + 1.0).1
    ensures forall g': Guard :: g'.buckets == Take(g, k, t).0.buckets ==> Level(g', k, t + Take(g, k, t).2 as real + 1.0) >= 1.0
  {
    var h, later := Take(g, k, t).0, t + Take(g, k, t).2 as real + 1.0;
    forall g': Guard | g'.buckets == h.buckets ensures Level(g', k, later) == Level(h, k, later) {
      SameBucketLevel(h, g', k, later);
    }
  }

  // ---------- Safe mode begins exactly when it is earned ----------

  /** The call is the first of the user after safe mode ran out: it forgets what was recorded. */
  predicate Ends(run: seq<Call>, k: nat, user: string)
    requires k < |run|
  {
    run[k].Heavy? && run[k].user == user && user != "" && user in At(run, k).safeUntil && At(run, k).safeUntil[user] <= run[k].at
  }

  /** The refusals and noted storms of the user since safe mode last ended, no older than `cutoff`. */
  function Held(run: seq<Call>, n: nat, user: string, cutoff: real): nat
    requires n <= |run|
  {
    if n == 0 then 0
    else
      (if Ends(run, n - 1, user) then 0 else Held(run, n - 1, user, cutoff))
      + if Records(run, n - 1, user) && run[n - 1].at >= cutoff then 1 else 0
  }

  lemma ExactList(g: Guard, c: Call, user: string)
    ensures var kept := if c.Heavy? && c.user == user && user != "" && user in g.safeUntil && g.safeUntil[user] <= c.at then []
                        else EventsOf(g, user);
            var records := c.user == user && user != ""
              && (c.Heavy? ==> Allow(g, c.endpoint, c.user, c.session, c.at).1.reason in {UserBudget, SessionBudget});
            && EventsOf(Step(g, c), user) == (if records then Since(kept, c.at - EVENT_WINDOW) + [c.at] else kept)
            && (records && |EventsOf(Step(g, c), user)| >= 24 ==>
                  user in Step(g, c).safeUntil && Step(g, c).safeUntil[user] == c.at + 120.0)
  {
    hide Level, Hint, UserKey, SessionKey;
    assert Since([], c.at - EVENT_WINDOW) == [];
  }

  lemma SinceLength(kept: seq<real>, t: real, cutoff: real)
    requires t - EVENT_WINDOW <= cutoff
    ensures |Since(Since(kept, t - EVENT_WINDOW) + [t], cutoff)| == |Since(kept, cutoff)| + if t >= cutoff then 1 else 0
  {
    SinceSnoc(Since(kept, t - EVENT_WINDOW), t, cutoff);
    SinceLater(kept, t - EVENT_WINDOW, cutoff);
  }

  lemma {:induction false} SinceLater(events: seq<real>, a: real, c: real)
    requires a <= c
    ensures Since(Since(events, a), c) == Since(events, c)
  {
    if events != [] {
      var rest, last := events[..|events| - 1], events[|events| - 1];
      SinceLater(rest, a, c);
      if last >= a {
        assert Since(events, a) == Since(rest, a) + [last];
        SinceSnoc(Since(rest, a), last, c);
      } else {
        assert Since(events, a) == Since(rest, a);
      }
    }
  }

  /** The list kept for the user holds exactly those events, on every window that is still open. */
  lemma {:induction false} ListIsHeld(run: seq<Call>, n: nat, user: string, cutoff: real)
    requires Timed(run) && n <= |run| && (n > 0 ==> run[n - 1].at - EVENT_WINDOW <= cutoff)
    ensures |Since(EventsOf(At(run, n), user), cutoff)| == Held(run, n, user, cutoff)
  {
    if n == 0 {
      SinceNone(cutoff);
    } else {
      assert n > 1 ==> run[n - 2].at <= run[n - 1].at;
      hide *;
      ListIsHeld(run, n - 1, user, cutoff);
      HeldNext(run, n - 1, user, cutoff);
    }
  }

  lemma HeldNext(run: seq<Call>, n: nat, user: string, cutoff: real)
    requires n < |run| && run[n].at - EVENT_WINDOW <= cutoff
    requires |Since(EventsOf(At(run, n), user), cutoff)| == Held(run, n, user, cutoff)
    ensures |Since(EventsOf(At(run, n + 1), user), cutoff)| == Held(run, n + 1, user, cutoff)
  {
    hide Since, EventsOf, Ends, Records, At;
    SinceNone(cutoff);
    ListNext(run, n, user);
    SinceLength(if Ends(run, n, user) then [] else EventsOf(At(run, n), user), run[n].at, cutoff);
  }

  lemma ListNext(run: seq<Call>, n: nat, user: string)
    requires n < |run|
    ensures var kept := if Ends(run, n, user) then [] else EventsOf(At(run, n), user);
            && EventsOf(At(run, n + 1), user) ==
                 (if Records(run, n, user) then Since(kept, run[n].at - EVENT_WINDOW) + [run[n].at] else kept)
            && (Records(run, n, user) && |EventsOf(At(run, n + 1), user)| >= 24 ==>
                  user in At(run, n + 1).safeUntil && At(run, n + 1).safeUntil[user] == run[n].at + 120.0)
  {
    AtNext(run, n);
    hide At, Step, Allow, EventsOf, Since;
    ExactList(At(run, n), run[n], user);
  }

  /** When an event is recorded, the list is as long as what is held. */
  lemma HeldIsList(run: seq<Call>, k: nat, user: string)
    requires k < |run| && Timed(run) && Records(run, k, user)
    ensures |EventsOf(At(run, k + 1), user)| == Held(run, k + 1, user, run[k].at - 120.0)
  {
    hide At, EventsOf, Since, Held, Records, Ends, Timed;
    ListIsHeld(run, k + 1, user, run[k].at - EVENT_WINDOW);
    StepEvents(run, k, user);
    ListRecent(EventsOf(At(run, k), user), EventsOf(At(run, k + 1), user), run[k].at);
  }

  /** The event that makes it 24 within two minutes sets the deadline two minutes ahead, and nothing else ever moves a deadline. */
  lemma SafeModeExactly(run: seq<Call>, k: nat, user: string)
    requires Timed(run) && k < |run|
    ensures Records(run, k, user) && Held(run, k + 1, user, run[k].at - 120.0) >= 24 ==>
              user in At(run, k + 1).safeUntil && At(run, k + 1).safeUntil[user] == run[k].at + 120.0
    ensures user in At(run, k + 1).safeUntil
            && (user in At(run, k).safeUntil ==> At(run, k + 1).safeUntil[user] != At(run, k).safeUntil[user]) ==>
              Records(run, k, user) && Held(run, k + 1, user, run[k].at - 120.0) >= 24
  {
    hide At, EventsOf, Since, Held, Records, Ends, Timed;
    if Records(run, k, user) {
      HeldIsList(run, k, user);
      ListNext(run, k, user);
    }
    if user in At(run, k + 1).safeUntil
       && (user in At(run, k).safeUntil ==> At(run, k + 1).safeUntil[user] != At(run, k).safeUntil[user]) {
      StepBegins(run, k, user);
    }
  }
}
