/** The limiter functions over their dictionaries and the shared timer. A
    result of false stands for the 429 response. */
module RateStore {
  import opened RateLimits

  class Store {
    var ip: Lists
    var lookup: Lists
    var register: Lists
    var cleanedAt: real

    constructor (start: real)
      ensures Contents() == Limits(map[], map[], map[], start)
    {
      ip, lookup, register, cleanedAt := map[], map[], map[], start;
    }

    function Contents(): Limits
      reads this
    {
      Limits(ip, lookup, register, cleanedAt)
    }

    method WipeIfDue(now: real)
      modifies this
      ensures Contents() == Wipe(old(Contents()), now)
    {
      if now - cleanedAt > CLEANUP {
        ip, lookup, register := map[], map[], map[];
        cleanedAt := now;
      }
    }

    static method Younger(times: seq<real>, now: real, window: real) returns (recent: seq<real>)
      ensures recent == After(times, now - window)
    {
      recent := [];
      for i := 0 to |times|
        invariant recent == After(times[..i], now - window)
      {
        assert times[..i + 1][..i] == times[..i];
        if now - times[i] < window {
          recent := recent + [times[i]];
        }
      }
      assert times[..|times|] == times;
    }

    method CheckRateLimit(key: string, limit: nat, now: real) returns (ok: bool)
      modifies this
      ensures (Contents(), ok) == Admit(old(Contents()), IpCall(key, limit, now))
    {
      WipeIfDue(now);
      var recent := Younger(if key in ip then ip[key] else [], now, 60.0);
      ok := |recent| < limit;
      assert recent + [] == recent;
      if ok {
        recent := recent + [now];
      }
      ip := ip[key := recent];
    }

    method CheckLookupRateLimit(key: string, now: real) returns (ok: bool)
      modifies this
      ensures (Contents(), ok) == Admit(old(Contents()), LookupCall(key, now))
    {
      WipeIfDue(now);
      var recent := Younger(if key in lookup then lookup[key] else [], now, 30.0);
      ok := |recent| < 90;
      assert recent + [] == recent;
      if ok {
        recent := recent + [now];
      }
      lookup := lookup[key := recent];
    }

    method CheckRegisterRateLimit(key: string, now: real) returns (ok: bool)
      modifies this
      ensures (Contents(), ok) == Admit(old(Contents()), RegisterCall(key, now))
    {
      var recent := Younger(if key in register then register[key] else [], now, 3600.0);
      ok := |recent| < 10;
      assert recent + [] == recent;
      if ok {
        recent := recent + [now];
      }
      register := register[key := recent];
    }

    /** The part of session validation that touches the shared timer. */
    method NoteSessionCheck(now: real)
      modifies this`cleanedAt
      ensures Contents() == Delay(old(Contents()), now)
    {
      if now - cleanedAt > CLEANUP {
        cleanedAt := now;
      }
    }
  }
}
