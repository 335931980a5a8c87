/** The module-level dictionaries of admission control and the functions that
    rewrite them, each proved against its function in Storm. */
module StormGuard {
  import opened Storm

  class Store {
    var buckets: map<BucketKey, Bucket>
    var safeUntil: map<string, real>
    var events: map<string, seq<real>>

    constructor ()
      ensures Contents() == Guard(map[], map[], map[])
    {
      buckets, safeUntil, events := map[], map[], map[];
    }

    function Contents(): Guard
      reads this
    {
      Guard(buckets, safeUntil, events)
    }

    /** A key without a bucket has a full one. */
    method TokenBucketAllow(k: BucketKey, now: real) returns (ok: bool, retry: int)
      modifies this`buckets
      ensures (Contents(), ok, retry) == Take(old(Contents()), k, now)
    {
      hide Cap, Rate;
      var cap, rate := Cap(k), Rate(k);
      var tokens, last := cap, now;
      if k in buckets {
        tokens, last := buckets[k].tokens, buckets[k].last;
      }
      var elapsed := if now - last > 0.0 then now - last else 0.0;
      tokens := tokens + elapsed * rate;
      if tokens > cap {
        tokens := cap;
      }
      if tokens >= 1.0 {
        buckets := buckets[k := Bucket(tokens - 1.0, now)];
        return true, 0;
      }
      var wait := (1.0 - tokens) / rate;
      retry := if wait > 1.0 then wait.Floor else 1;
      buckets := buckets[k := Bucket(tokens, now)];
      ok := false;
    }

    method RecordStormEvent(user: string, now: real)
      modifies this
      ensures Contents() == Record(old(Contents()), user, now)
    {
      if user == "" {
        return;
      }
      var all, recent := EventsOf(Contents(), user), [];
      for i := 0 to |all|
        invariant recent == Since(all[..i], now - EVENT_WINDOW)
      {
        assert all[..i + 1][..i] == all[..i];
        if all[i] >= now - EVENT_WINDOW {
          recent := recent + [all[i]];
        }
      }
      assert all[..|all|] == all;
      recent := recent + [now];
      events := events[user := recent];
      if |recent| >= EVENT_THRESHOLD {
        safeUntil := safeUntil[user := now + SAFE_MODE];
      }
    }

    /** 0 means that the user is not in safe mode. */
    method SafeModeRetryAfter(user: string, now: real) returns (retry: int)
      modifies this
      ensures Contents() == Release(old(Contents()), user, now)
      ensures InSafeMode(old(Contents()), user, now) ==> retry == Trunc(MaxR(1.0, old(safeUntil)[user] - now)) && retry > 0
      ensures !InSafeMode(old(Contents()), user, now) ==> retry == 0
    {
      if user == "" || user !in safeUntil {
        return 0;
      }
      var until := safeUntil[user];
      if now >= until {
        safeUntil := safeUntil - {user};
        events := events - {user};
        return 0;
      }
      retry := if until - now > 1.0 then (until - now).Floor else 1;
    }

    method AllowHeavyEndpoint(endpoint: string, user: string, session: string, now: real) returns (v: Verdict)
      modifies this
      ensures (Contents(), v) == Allow(old(Contents()), endpoint, user, session, now)
    {
      hide Take, Record;
      var safe := SafeModeRetryAfter(user, now);
      if safe > 0 {
        return Verdict(false, safe, SafeMode);
      }
      var okUser, retryUser := TokenBucketAllow(UserKey(endpoint, user), now);
      if !okUser {
        RecordStormEvent(user, now);
        return Verdict(false, retryUser, UserBudget);
      }
      var okSession, retrySession := TokenBucketAllow(SessionKey(endpoint, session), now);
      if !okSession {
        RecordStormEvent(user, now);
        return Verdict(false, retrySession, SessionBudget);
      }
      v := Verdict(true, 0, Admitted);
    }
  }
}
