/** Admission control over runs of any length. */
module StormRuns {
  import opened Storm

  datatype Call = Heavy(endpoint: string, user: string, session: string, at: real) | Note(user: string, at: real)

  function Step(g: Guard, c: Call): Guard {
    match c
    case Heavy(endpoint, user, session, t) => Allow(g, endpoint, user, session, t).0
    case Note(user, t) => Record(g, user, t)
  }

  function At(run: seq<Call>, n: nat): Guard
    requires n <= |run|
  {
    if n == 0 then Guard(map[], map[], map[]) else Step(At(run, n - 1), run[n - 1])
  }

  /** The clock does not run backwards. */
  predicate Timed(run: seq<Call>) {
    forall i, j :: 0 <= i <= j < |run| ==> run[i].at <= run[j].at
  }

  predicate Admits(run: seq<Call>, k: nat)
    requires k < |run|
  {
    run[k].Heavy? && Allow(At(run, k), run[k].endpoint, run[k].user, run[k].session, run[k].at).1.ok
  }

  /** The user bucket or the session bucket of the call. */
  predicate ChargedTo(c: Call, key: BucketKey) {
    c.Heavy? && (key == UserKey(c.endpoint, c.user) || key == SessionKey(c.endpoint, c.session))
  }

  /** The admitted calls among steps i to j - 1 that are charged to `key`. */
  function Count(run: seq<Call>, key: BucketKey, i: nat, j: nat): nat
    requires i <= j <= |run|
  {
    if i == j then 0
    else Count(run, key, i, j - 1) + if Admits(run, j - 1) && ChargedTo(run[j - 1], key) then 1 else 0
  }

  lemma AllowLevels(g: Guard, c: Call, key: BucketKey)
    requires c.Heavy? && Clocked(g, c.at)
    ensures var (g', v) := Allow(g, c.endpoint, c.user, c.session, c.at);
            && Clocked(g', c.at)
            && Level(g', key, c.at) <= Level(g, key, c.at) - if v.ok && ChargedTo(c, key) then 1.0 else 0.0
  {
    hide Rate, Cap, Refill, Hint, Since, Clocked;
    var k, k' := UserKey(c.endpoint, c.user), SessionKey(c.endpoint, c.session);
    var g0 := Release(g, c.user, c.at);
    SameClock(g, g0, c.at);
    TakeLevels(g0, k, c.at, key, c.at);
    var g1 := Take(g0, k, c.at).0;
    TakeLevels(g1, k', c.at, key, c.at);
    var g2 := Take(g1, k', c.at).0;
    SameClock(g1, Record(g1, c.user, c.at), c.at);
    SameClock(g2, Record(g2, c.user, c.at), c.at);
  }

  lemma StepLevels(g: Guard, c: Call, key: BucketKey)
    requires Clocked(g, c.at)
    ensures Clocked(Step(g, c), c.at)
    ensures Level(Step(g, c), key, c.at) <= Level(g, key, c.at)
    ensures c.Heavy? && Allow(g, c.endpoint, c.user, c.session, c.at).1.ok && ChargedTo(c, key) ==>
              Level(Step(g, c), key, c.at) <= Level(g, key, c.at) - 1.0
  {
    hide Allow;
    if c.Heavy? {
      AllowLevels(g, c, key);
    }
  }

  lemma {:induction false} ClockedAt(run: seq<Call>, n: nat)
    requires Timed(run) && n < |run|
    ensures Clocked(At(run, n), run[n].at)
  {
    if n > 0 {
      hide Step, Clocked;
      ClockedAt(run, n - 1);
      StepLevels(At(run, n - 1), run[n - 1], UserKey("", ""));
      ClockedLater(At(run, n), run[n - 1].at, run[n].at);
    }
  }

  lemma CountStep(run: seq<Call>, key: BucketKey, i: nat, j: nat)
    requires Timed(run) && i <= j < |run|
    ensures Count(run, key, i, j + 1) as real + Level(At(run, j + 1), key, run[j].at)
         <= Count(run, key, i, j) as real + Level(At(run, j), key, run[j].at)
  {
    hide Step, Clocked, Level, ChargedTo;
    ClockedAt(run, j);
    StepLevels(At(run, j), run[j], key);
  }

  /** What the bucket can refill between two times. */
  function Earned(key: BucketKey, from: real, to: real): real {
    (to - from) * Rate(key)
  }

  lemma EarnedAdds(key: BucketKey, x: real, y: real, z: real)
    ensures Earned(key, x, y) + Earned(key, y, z) == Earned(key, x, z) && Earned(key, x, x) == 0.0
  {
    var r := Rate(key);
    assert (y - x) * r + (z - y) * r == (z - x) * r;
  }

  lemma LevelEarns(run: seq<Call>, key: BucketKey, n: nat)
    requires Timed(run) && n + 1 < |run|
    ensures Level(At(run, n + 1), key, run[n + 1].at) <= Level(At(run, n + 1), key, run[n].at) + Earned(key, run[n].at, run[n + 1].at)
  {
    hide Rate, Step, Clocked, Level;
    ClockedAfter(run, n);
    LevelGrows(At(run, n + 1), key, run[n].at, run[n + 1].at);
  }

  lemma {:induction false} CountAndLevel(run: seq<Call>, key: BucketKey, i: nat, j: nat)
    requires Timed(run) && i < j <= |run|
    ensures Count(run, key, i, j) as real + Level(At(run, j), key, run[j - 1].at)
         <= Level(At(run, i), key, run[i].at) + Earned(key, run[i].at, run[j - 1].at)
    decreases j
  {
    hide *;
    CountStep(run, key, i, j - 1);
    if i == j - 1 {
      CountNone(run, key, i);
      EarnedAdds(key, run[i].at, run[i].at, run[i].at);
    } else {
      CountAndLevel(run, key, i, j - 1);
      LevelEarns(run, key, j - 2);
      EarnedAdds(key, run[i].at, run[j - 2].at, run[j - 1].at);
    }
  }

  lemma CountNone(run: seq<Call>, key: BucketKey, i: nat)
    requires i <= |run|
    ensures Count(run, key, i, i) == 0
  {
  }

  lemma ClockedAfter(run: seq<Call>, n: nat)
    requires Timed(run) && n < |run|
    ensures Clocked(At(run, n + 1), run[n].at)
    ensures n + 1 < |run| ==> run[n].at <= run[n + 1].at
  {
    hide Step, Clocked;
    ClockedAt(run, n);
    StepLevels(At(run, n), run[n], UserKey("", ""));
  }

  /** Over any stretch of a run, the calls admitted for a user and endpoint number at most cap + T * cap / window
      of the user budget, and the calls admitted for a session key at most that of the session budget. */
  lemma BudgetBound(run: seq<Call>, key: BucketKey, i: nat, j: nat)
    requires Timed(run) && i < j <= |run|
    ensures Count(run, key, i, j) as real <= Cap(key) + (run[j - 1].at - run[i].at) * Rate(key)
  {
    hide Step, Rate, Cap, Clocked, Level, Count;
    CountAndLevel(run, key, i, j);
    ClockedAt(run, i);
    LevelGrows(At(run, i), key, run[i].at, run[i].at);
    ClockedAt(run, j - 1);
    StepLevels(At(run, j - 1), run[j - 1], key);
    LevelGrows(At(run, j), key, run[j - 1].at, run[j - 1].at);
  }

  // ---------- Safe mode ----------

  lemma StepUntil(g: Guard, c: Call, user: string)
    requires user != "" && user in g.safeUntil && c.at < g.safeUntil[user] <= c.at + SAFE_MODE
    ensures user in Step(g, c).safeUntil && Step(g, c).safeUntil[user] >= g.safeUntil[user]
  {
    hide Level, Hint, Since;
  }

  /** No deadline lies further ahead than one full safe mode. */
  lemma {:induction false} UntilNear(run: seq<Call>, n: nat, user: string)
    requires Timed(run) && n < |run| && user in At(run, n).safeUntil
    ensures At(run, n).safeUntil[user] <= run[n].at + SAFE_MODE
  {
    if n > 0 {
      var g, c := At(run, n - 1), run[n - 1];
      StepSets(g, c, user);
      if user in g.safeUntil {
        UntilNear(run, n - 1, user);
      }
    }
  }

  lemma StepSets(g: Guard, c: Call, user: string)
    requires user in Step(g, c).safeUntil
    ensures (user in g.safeUntil && Step(g, c).safeUntil[user] == g.safeUntil[user]) || Step(g, c).safeUntil[user] == c.at + SAFE_MODE
  {
    hide Level, Hint, Since;
  }

  lemma {:induction false} UntilStays(run: seq<Call>, i: nat, j: nat, user: string)
    requires Timed(run) && i <= j < |run| && user != "" && user in At(run, i).safeUntil
    requires run[j].at < At(run, i).safeUntil[user]
    ensures user in At(run, j).safeUntil && At(run, j).safeUntil[user] >= At(run, i).safeUntil[user]
    decreases j
  {
    if i < j {
      hide Step;
      UntilStays(run, i, j - 1, user);
      UntilNear(run, j - 1, user);
      StepUntil(At(run, j - 1), run[j - 1], user);
    }
  }

  /** Once a deadline is set, no call of that user is admitted before it, whatever happens in between. */
  lemma SafeModeHolds(run: seq<Call>, i: nat, j: nat, user: string)
    requires Timed(run) && i <= j < |run| && user != "" && user in At(run, i).safeUntil
    requires run[j].at < At(run, i).safeUntil[user] && run[j].user == user
    ensures !Admits(run, j)
    ensures run[j].Heavy? ==> Allow(At(run, j), run[j].endpoint, user, run[j].session, run[j].at).1.reason == SafeMode
  {
    hide Step;
    UntilStays(run, i, j, user);
  }

  /** Step k is a refusal by a budget, or a noted storm, of the user. */
  predicate Records(run: seq<Call>, k: nat, user: string)
    requires k < |run|
  {
    && run[k].user == user && user != ""
    && (run[k].Heavy? ==>
          Allow(At(run, k), run[k].endpoint, run[k].user, run[k].session, run[k].at).1.reason in {UserBudget, SessionBudget})
  }

  /** The recorded events of the user among the first n steps, no older than `cutoff`. */
  function Recorded(run: seq<Call>, n: nat, user: string, cutoff: real): nat
    requires n <= |run|
  {
    if n == 0 then 0
    else Recorded(run, n - 1, user, cutoff) + if Records(run, n - 1, user) && run[n - 1].at >= cutoff then 1 else 0
  }

  lemma SinceSnoc(events: seq<real>, t: real, cutoff: real)
    ensures Since(events + [t], cutoff) == Since(events, cutoff) + if t >= cutoff then [t] else []
  {
    assert (events + [t])[..|events|] == events;
  }

  lemma {:induction false} SinceTwice(events: seq<real>, a: real, c: real)
    ensures |Since(Since(events, a), c)| <= |Since(events, c)|
    ensures a >= c ==> Since(Since(events, a), c) == Since(events, a)
  {
    if events != [] {
      var rest, last := events[..|events| - 1], events[|events| - 1];
      SinceTwice(rest, a, c);
      if last >= a {
        assert Since(events, a) == Since(rest, a) + [last];
        SinceSnoc(Since(rest, a), last, c);
      } else {
        assert Since(events, a) == Since(rest, a);
      }
    }
  }

  lemma StepList(g: Guard, c: Call, user: string)
    ensures var e, e' := EventsOf(g, user), EventsOf(Step(g, c), user);
            if c.user == user && user != ""
               && (c.Heavy? ==> Allow(g, c.endpoint, c.user, c.session, c.at).1.reason in {UserBudget, SessionBudget}) then
              e' == Since(e, c.at - EVENT_WINDOW) + [c.at] || e' == [c.at]
            else e' == e || e' == []
  {
    hide Level, Hint;
  }

  /** What one step does to the event list of a user. */
  lemma StepEvents(run: seq<Call>, n: nat, user: string)
    requires n < |run|
    ensures var e, e' := EventsOf(At(run, n), user), EventsOf(At(run, n + 1), user);
            if Records(run, n, user) then
              e' == Since(e, run[n].at - EVENT_WINDOW) + [run[n].at] || e' == [run[n].at]
            else e' == e || e' == []
  {
    hide Level, Hint, At;
    AtNext(run, n);
    StepList(At(run, n), run[n], user);
  }

  lemma AtNext(run: seq<Call>, n: nat)
    requires n < |run|
    ensures At(run, n + 1) == Step(At(run, n), run[n])
  {
  }

  /** The list never holds more than was recorded. */
  lemma {:induction false} EventsRecorded(run: seq<Call>, n: nat, user: string, cutoff: real)
    requires n <= |run|
    ensures |Since(EventsOf(At(run, n), user), cutoff)| <= Recorded(run, n, user, cutoff)
  {
    hide Step, Records, Since;
    if n == 0 {
      SinceNone(cutoff);
    } else {
      EventsRecorded(run, n - 1, user, cutoff);
      EventsStep(run, n - 1, user, cutoff);
    }
  }

  lemma EventsStep(run: seq<Call>, n: nat, user: string, cutoff: real)
    requires n < |run|
    ensures |Since(EventsOf(At(run, n + 1), user), cutoff)| - |Since(EventsOf(At(run, n), user), cutoff)|
         <= Recorded(run, n + 1, user, cutoff) - Recorded(run, n, user, cutoff)
  {
    hide Step, At, EventsOf, Records, Since;
    StepEvents(run, n, user);
    var e, e' := EventsOf(At(run, n), user), EventsOf(At(run, n + 1), user);
    if Records(run, n, user) {
      ListBound(e, e', run[n].at, cutoff);
    } else {
      SinceNone(cutoff);
    }
  }

  lemma SinceNone(cutoff: real)
    ensures Since([], cutoff) == []
  {
  }

  lemma ListBound(e: seq<real>, e': seq<real>, t: real, cutoff: real)
    requires e' == Since(e, t - EVENT_WINDOW) + [t] || e' == [t]
    ensures |Since(e', cutoff)| <= |Since(e, cutoff)| + if t >= cutoff then 1 else 0
  {
    SinceTwice(e, t - EVENT_WINDOW, cutoff);
    SinceSnoc(Since(e, t - EVENT_WINDOW), t, cutoff);
    SinceSnoc([], t, cutoff);
  }

  /** Nothing in the list is older than the window when an event is added. */
  lemma ListRecent(e: seq<real>, e': seq<real>, t: real)
    requires e' == Since(e, t - EVENT_WINDOW) + [t] || e' == [t]
    ensures Since(e', t - EVENT_WINDOW) == e'
  {
    SinceTwice(e, t - EVENT_WINDOW, t - EVENT_WINDOW);
    SinceSnoc(Since(e, t - EVENT_WINDOW), t, t - EVENT_WINDOW);
    SinceSnoc([], t, t - EVENT_WINDOW);
  }

  /** Safe mode is earned: it begins only when the user has had at least 24 refusals or noted storms within the last two minutes. */
  lemma SafeModeEarned(run: seq<Call>, k: nat, user: string)
    requires k < |run| && user in At(run, k + 1).safeUntil
    requires user in At(run, k).safeUntil ==> At(run, k + 1).safeUntil[user] != At(run, k).safeUntil[user]
    ensures Records(run, k, user) && At(run, k + 1).safeUntil[user] == run[k].at + SAFE_MODE
    ensures Recorded(run, k + 1, user, run[k].at - EVENT_WINDOW) >= EVENT_THRESHOLD
  {
    hide *;
    var t := run[k].at;
    StepBegins(run, k, user);
    EventsRecorded(run, k + 1, user, t - EVENT_WINDOW);
    StepEvents(run, k, user);
    ListRecent(EventsOf(At(run, k), user), EventsOf(At(run, k + 1), user), t);
  }

  lemma StepBegins(run: seq<Call>, k: nat, user: string)
    requires k < |run| && user in At(run, k + 1).safeUntil
    requires user in At(run, k).safeUntil ==> At(run, k + 1).safeUntil[user] != At(run, k).safeUntil[user]
    ensures Records(run, k, user) && At(run, k + 1).safeUntil[user] == run[k].at + SAFE_MODE
    ensures |EventsOf(At(run, k + 1), user)| >= EVENT_THRESHOLD
  {
    hide Level, Hint, Since, At, UserKey, SessionKey;
    AtNext(run, k);
  }

  // ---------- A refusal that costs the user a token ----------

  /** Seven logins of one user from one session, all at once. */
  function SevenLogins(): seq<Call> {
    seq(7, _ => Heavy("login", "u", "s", 0.0))
  }

  lemma {:induction false} LoginLevels(n: nat)
    requires n <= 6
    ensures var g := At(SevenLogins(), n);
            && Clocked(g, 0.0) && g.safeUntil == map[]
            && Level(g, UserKey("login", "u"), 0.0) == 10.0 - n as real
            && Level(g, SessionKey("login", "s"), 0.0) == 6.0 - n as real
  {
    if n > 0 {
      hide Level, UserKey, SessionKey, Record, Take;
      LoginLevels(n - 1);
      AllowOutcome(At(SevenLogins(), n - 1), "login", "u", "s", 0.0);
    }
  }

  /** The seventh is refused, because a session has six logins a minute, and it takes one of the user's four left. */
  lemma SeventhLogin()
    ensures var g, g' := At(SevenLogins(), 6), At(SevenLogins(), 7);
            && !Admits(SevenLogins(), 6)
            && Level(g, UserKey("login", "u"), 0.0) == 4.0 && Level(g', UserKey("login", "u"), 0.0) == 3.0
  {
    LoginLevels(6);
    hide Level, UserKey, SessionKey, Record, Take;
    AllowOutcome(At(SevenLogins(), 6), "login", "u", "s", 0.0);
  }
}
