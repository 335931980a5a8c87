/** The sliding-window limiters: per address, per lookup key and per
    registration address, which one shared timer wipes together. Times are
    exact reals. */
module RateLimits {
  const CLEANUP: real := 3600.0

  datatype Which = ByIp | ByLookup | ByRegister

  type Lists = map<string, seq<real>>

  datatype Limits = Limits(ip: Lists, lookup: Lists, register: Lists, cleanedAt: real)

  /** The limit of the address limiter depends on the endpoint. `SessionCheck`
      is a session validation whose own hourly duty is due. */
  datatype Call =
    | IpCall(key: string, limit: nat, at: real)
    | LookupCall(key: string, at: real)
    | RegisterCall(key: string, at: real)
    | SessionCheck(at: real)

  function WhichOf(c: Call): Which
    requires !c.SessionCheck?
  {
    if c.IpCall? then ByIp else if c.LookupCall? then ByLookup else ByRegister
  }

  function Window(w: Which): real {
    match w
    case ByIp => 60.0
    case ByLookup => 30.0
    case ByRegister => 3600.0
  }

  function LimitOf(c: Call): nat
    requires !c.SessionCheck?
  {
    if c.IpCall? then c.limit else if c.LookupCall? then 90 else 10
  }

  function Table(l: Limits, w: Which): Lists {
    match w
    case ByIp => l.ip
    case ByLookup => l.lookup
    case ByRegister => l.register
  }

  function SetTable(l: Limits, w: Which, t: Lists): Limits {
    match w
    case ByIp => l.(ip := t)
    case ByLookup => l.(lookup := t)
    case ByRegister => l.(register := t)
  }

  function ListOf(l: Limits, w: Which, key: string): seq<real> {
    if key in Table(l, w) then Table(l, w)[key] else []
  }

  /** The timestamps younger than a window that ends now: those after `cutoff`. */
  function After(times: seq<real>, cutoff: real): seq<real> {
    if times == [] then []
    else
      var rest, last := times[..|times| - 1], times[|times| - 1];
      After(rest, cutoff) + if last > cutoff then [last] else []
  }

  predicate Overdue(l: Limits, at: real) {
    at - l.cleanedAt > CLEANUP
  }

  function Wipe(l: Limits, at: real): Limits {
    if Overdue(l, at) then Limits(map[], map[], map[], at) else l
  }

  /** Registration calls never wipe. */
  function Cleaned(l: Limits, c: Call): Limits
    requires !c.SessionCheck?
  {
    if c.RegisterCall? then l else Wipe(l, c.at)
  }

  function Recent(l: Limits, c: Call): seq<real>
    requires !c.SessionCheck?
  {
    After(ListOf(Cleaned(l, c), WhichOf(c), c.key), c.at - Window(WhichOf(c)))
  }

  function SetList(l: Limits, w: Which, key: string, times: seq<real>): Limits {
    SetTable(l, w, Table(l, w)[key := times])
  }

  function Admit(l: Limits, c: Call): (Limits, bool)
    requires !c.SessionCheck?
  {
    var ok := |Recent(l, c)| < LimitOf(c);
    (SetList(Cleaned(l, c), WhichOf(c), c.key, Recent(l, c) + if ok then [c.at] else []), ok)
  }

  /** Validating a session restarts the shared timer without wiping anything. */
  function Delay(l: Limits, at: real): Limits {
    if Overdue(l, at) then l.(cleanedAt := at) else l
  }

  // ---------- Runs ----------

  function Step(l: Limits, c: Call): Limits {
    if c.SessionCheck? then Delay(l, c.at) else Admit(l, c).0
  }

  /** The limiters after n calls of a process started at `start`. */
  function At(start: real, run: seq<Call>, n: nat): Limits
    requires n <= |run|
  {
    if n == 0 then Limits(map[], map[], map[], start) else Step(At(start, run, n - 1), run[n - 1])
  }

  predicate Timed(start: real, run: seq<Call>) {
    && (forall i :: 0 <= i < |run| ==> start <= run[i].at)
    && (forall i, j :: 0 <= i <= j < |run| ==> run[i].at <= run[j].at)
  }

  predicate Wipes(start: real, run: seq<Call>, k: nat)
    requires k < |run|
  {
    (run[k].IpCall? || run[k].LookupCall?) && Overdue(At(start, run, k), run[k].at)
  }

  predicate Asks(c: Call, w: Which, key: string) {
    !c.SessionCheck? && WhichOf(c) == w && c.key == key
  }

  predicate Accepts(start: real, run: seq<Call>, k: nat, w: Which, key: string)
    requires k < |run|
  {
    Asks(run[k], w, key) && Admit(At(start, run, k), run[k]).1
  }

  /** Reference: the times of the accepted calls of a key since the last wipe, before step n has run its check. */
  function Accepted(start: real, run: seq<Call>, n: nat, w: Which, key: string): seq<real>
    requires n <= |run|
  {
    if n == 0 then []
    else
      (if Wipes(start, run, n - 1) then [] else Accepted(start, run, n - 1, w, key))
      + if Accepts(start, run, n - 1, w, key) then [run[n - 1].at] else []
  }

  lemma AfterSnoc(times: seq<real>, t: real, cutoff: real)
    ensures After(times + [t], cutoff) == After(times, cutoff) + if t > cutoff then [t] else []
  {
    assert (times + [t])[..|times|] == times;
  }

  lemma {:induction false} AfterTwice(times: seq<real>, a: real, c: real)
    requires a <= c
    ensures After(After(times, a), c) == After(times, c)
  {
    if times != [] {
      var rest, last := times[..|times| - 1], times[|times| - 1];
      AfterTwice(rest, a, c);
      if last > a {
        assert After(times, a) == After(rest, a) + [last];
        AfterSnoc(After(rest, a), last, c);
      } else {
        assert After(times, a) == After(rest, a);
      }
    }
  }

  lemma ListOfSet(l: Limits, w: Which, key: string, times: seq<real>, w': Which, key': string)
    ensures ListOf(SetList(l, w, key, times), w', key') == if w' == w && key' == key then times else ListOf(l, w', key')
  {
  }

  lemma ListOfCleaned(l: Limits, c: Call, w: Which, key: string)
    requires !c.SessionCheck?
    ensures ListOf(Cleaned(l, c), w, key) == if !c.RegisterCall? && Overdue(l, c.at) then [] else ListOf(l, w, key)
  {
  }

  /** Dropping old timestamps early changes no later window. */
  lemma ListAfterAdmit(l: Limits, c: Call, w: Which, key: string, cutoff: real)
    requires !c.SessionCheck? && (WhichOf(c) == w ==> c.at - Window(w) <= cutoff)
    ensures After(ListOf(Admit(l, c).0, w, key), cutoff)
         == After(ListOf(Cleaned(l, c), w, key) + if Asks(c, w, key) && Admit(l, c).1 then [c.at] else [], cutoff)
  {
    hide Cleaned, ListOf, SetList, After;
    var kept := ListOf(Cleaned(l, c), w, key);
    var added := if Admit(l, c).1 then [c.at] else [];
    ListOfSet(Cleaned(l, c), WhichOf(c), c.key, Recent(l, c) + added, w, key);
    assert kept + [] == kept;
    if Asks(c, w, key) {
      AfterTwice(kept, c.at - Window(w), cutoff);
      AfterSnoc(Recent(l, c), c.at, cutoff);
      AfterSnoc(kept, c.at, cutoff);
      assert Recent(l, c) + [] == Recent(l, c);
    }
  }

  lemma Unfold(start: real, run: seq<Call>, n: nat, w: Which, key: string)
    requires n < |run|
    ensures At(start, run, n + 1) == Step(At(start, run, n), run[n])
    ensures Accepted(start, run, n + 1, w, key)
         == (if Wipes(start, run, n) then [] else Accepted(start, run, n, w, key))
            + if Accepts(start, run, n, w, key) then [run[n].at] else []
  {
  }

  lemma ListStep(start: real, run: seq<Call>, n: nat, w: Which, key: string, cutoff: real)
    requires n < |run| && run[n].at - Window(w) <= cutoff
    requires After(ListOf(At(start, run, n), w, key), cutoff) == After(Accepted(start, run, n, w, key), cutoff)
    ensures After(ListOf(At(start, run, n + 1), w, key), cutoff) == After(Accepted(start, run, n + 1, w, key), cutoff)
  {
    hide At, Accepted, After, ListOf, Admit, Cleaned;
    Unfold(start, run, n, w, key);
    var l, c := At(start, run, n), run[n];
    var kept := if Wipes(start, run, n) then [] else Accepted(start, run, n, w, key);
    assert kept + [] == kept;
    if c.SessionCheck? {
      SameLists(l, c.at, w, key);
    } else {
      var list := ListOf(Cleaned(l, c), w, key);
      ListAfterAdmit(l, c, w, key, cutoff);
      ListOfCleaned(l, c, w, key);
      AfterSnoc(list, c.at, cutoff);
      AfterSnoc(kept, c.at, cutoff);
      assert list + [] == list;
    }
  }

  /** The stored list agrees with the reference on every window that is still open. */
  lemma {:induction false} ListIsAccepted(start: real, run: seq<Call>, n: nat, w: Which, key: string, cutoff: real)
    requires Timed(start, run) && n <= |run| && (n > 0 ==> run[n - 1].at - Window(w) <= cutoff)
    ensures After(ListOf(At(start, run, n), w, key), cutoff) == After(Accepted(start, run, n, w, key), cutoff)
    decreases n
  {
    if n > 0 {
      assert n > 1 ==> run[n - 2].at <= run[n - 1].at;
      hide *;
      ListIsAccepted(start, run, n - 1, w, key, cutoff);
      ListStep(start, run, n - 1, w, key, cutoff);
    }
  }

  lemma SameLists(l: Limits, at: real, w: Which, key: string)
    ensures ListOf(Delay(l, at), w, key) == ListOf(l, w, key)
  {
  }

  /** A call is accepted exactly when fewer than its limit of calls of the key were accepted within its
      window since the last wipe. */
  lemma AcceptedExactly(start: real, run: seq<Call>, k: nat, w: Which, key: string)
    requires Timed(start, run) && k < |run| && Asks(run[k], w, key)
    ensures var since := if Wipes(start, run, k) then [] else Accepted(start, run, k, w, key);
            Accepts(start, run, k, w, key) <==> |After(since, run[k].at - Window(w))| < LimitOf(run[k])
  {
    hide Accepted, ListOf, At, After;
    ListIsAccepted(start, run, k, w, key, run[k].at - Window(w));
    ListOfCleaned(At(start, run, k), run[k], w, key);
    assert After([], run[k].at - Window(w)) == After([], run[k].at - Window(w));
  }

  /** How many calls of the key were accepted after `cutoff` and since the last wipe. */
  function AcceptedSince(start: real, run: seq<Call>, n: nat, w: Which, key: string, cutoff: real): nat
    requires n <= |run|
  {
    if n == 0 then 0
    else
      (if Wipes(start, run, n - 1) then 0 else AcceptedSince(start, run, n - 1, w, key, cutoff))
      + if Accepts(start, run, n - 1, w, key) && run[n - 1].at > cutoff then 1 else 0
  }

  lemma {:induction false} AcceptedLength(start: real, run: seq<Call>, n: nat, w: Which, key: string, cutoff: real)
    requires n <= |run|
    ensures |After(Accepted(start, run, n, w, key), cutoff)| == AcceptedSince(start, run, n, w, key, cutoff)
  {
    if n > 0 {
      hide *;
      AcceptedLength(start, run, n - 1, w, key, cutoff);
      LengthNext(start, run, n - 1, w, key, cutoff);
    } else {
      hide After;
      AfterNone(cutoff);
    }
  }

  lemma LengthNext(start: real, run: seq<Call>, n: nat, w: Which, key: string, cutoff: real)
    requires n < |run| && |After(Accepted(start, run, n, w, key), cutoff)| == AcceptedSince(start, run, n, w, key, cutoff)
    ensures |After(Accepted(start, run, n + 1, w, key), cutoff)| == AcceptedSince(start, run, n + 1, w, key, cutoff)
  {
    hide Wipes, Accepts, After, At, Accepted;
    Unfold(start, run, n, w, key);
    var kept := if Wipes(start, run, n) then [] else Accepted(start, run, n, w, key);
    AfterSnoc(kept, run[n].at, cutoff);
    assert kept + [] == kept;
    AfterNone(cutoff);
  }

  lemma AfterNone(cutoff: real)
    ensures After([], cutoff) == []
  {
  }

  /** In numbers: an address gets its limit a minute, a lookup key 90 in half a minute, a registration address 10 an hour,
      counted since the last wipe, and no other key or limiter matters. */
  lemma AcceptedByCount(start: real, run: seq<Call>, k: nat)
    requires Timed(start, run) && k < |run| && !run[k].SessionCheck?
    ensures var c := run[k];
            var w, window, limit :=
              if c.IpCall? then ByIp else if c.LookupCall? then ByLookup else ByRegister,
              if c.IpCall? then 60.0 else if c.LookupCall? then 30.0 else 3600.0,
              if c.IpCall? then c.limit else if c.LookupCall? then 90 else 10;
            Admit(At(start, run, k), c).1 <==>
              (if Wipes(start, run, k) then 0 else AcceptedSince(start, run, k, w, c.key, c.at - window)) < limit
  {
    var c := run[k];
    hide At, Admit, Wipes, AcceptedSince, Timed;
    CountDecides(start, run, k, WhichOf(c), c.key);
  }

  lemma CountDecides(start: real, run: seq<Call>, k: nat, w: Which, key: string)
    requires Timed(start, run) && k < |run| && Asks(run[k], w, key)
    ensures Accepts(start, run, k, w, key) <==>
              (if Wipes(start, run, k) then 0 else AcceptedSince(start, run, k, w, key, run[k].at - Window(w))) < LimitOf(run[k])
  {
    hide At, Accepted, After, Accepts, Wipes, Timed, AcceptedSince, Window, LimitOf;
    AcceptedExactly(start, run, k, w, key);
    AcceptedLength(start, run, k, w, key, run[k].at - Window(w));
    AfterNone(run[k].at - Window(w));
  }

  /** The shared timer: the address and lookup limiters wipe exactly when more than an hour has passed since it was last
      started, and session checks then start it again without a wipe. */
  lemma TimerExactly(start: real, run: seq<Call>, k: nat)
    requires k < |run|
    ensures var due := run[k].at - At(start, run, k).cleanedAt > 3600.0;
            && (Wipes(start, run, k) <==> due && (run[k].IpCall? || run[k].LookupCall?))
            && At(start, run, k + 1).cleanedAt == (if due && !run[k].RegisterCall? then run[k].at else At(start, run, k).cleanedAt)
            && At(start, run, 0).cleanedAt == start
  {
    hide After;
  }

  // ---------- Bounds ----------

  function Count(start: real, run: seq<Call>, w: Which, key: string, i: nat, j: nat): nat
    requires i <= j <= |run|
  {
    if i == j then 0 else Count(start, run, w, key, i, j - 1) + if Accepts(start, run, j - 1, w, key) then 1 else 0
  }

  /** Between i and m nothing was wiped, so all of it is in the reference, and recent. */
  lemma {:induction false} CountInAccepted(start: real, run: seq<Call>, w: Which, key: string, i: nat, m: nat, cutoff: real)
    requires i <= m <= |run| && Timed(start, run)
    requires forall k :: i < k < m ==> !Wipes(start, run, k)
    requires i < m ==> run[i].at > cutoff
    ensures Count(start, run, w, key, i, m) <= |After(Accepted(start, run, m, w, key), cutoff)|
    decreases m
  {
    hide *;
    if i < m {
      assert i < m - 1 ==> !Wipes(start, run, m - 1);
      CountInAccepted(start, run, w, key, i, m - 1, cutoff);
      InOrder(start, run, i, m - 1);
      CountStep(start, run, w, key, i, m - 1, cutoff);
    } else {
      CountNone(start, run, w, key, i);
    }
  }

  lemma InOrder(start: real, run: seq<Call>, i: nat, m: nat)
    requires Timed(start, run) && i <= m < |run|
    ensures run[i].at <= run[m].at
  {
  }

  lemma CountNone(start: real, run: seq<Call>, w: Which, key: string, i: nat)
    requires i <= |run|
    ensures Count(start, run, w, key, i, i) == 0
  {
  }

  lemma CountStep(start: real, run: seq<Call>, w: Which, key: string, i: nat, m: nat, cutoff: real)
    requires i <= m < |run| && run[m].at > cutoff
    requires i < m ==> !Wipes(start, run, m)
    requires Count(start, run, w, key, i, m) <= |After(Accepted(start, run, m, w, key), cutoff)|
    ensures Count(start, run, w, key, i, m + 1) <= |After(Accepted(start, run, m + 1, w, key), cutoff)|
  {
    hide At, Accepted, After, Accepts, Wipes;
    Unfold(start, run, m, w, key);
    var kept := if Wipes(start, run, m) then [] else Accepted(start, run, m, w, key);
    AfterSnoc(kept, run[m].at, cutoff);
    assert kept + [] == kept;
    if i == m {
      CountNone(start, run, w, key, i);
    }
  }

  predicate Limited(run: seq<Call>, w: Which, key: string, i: nat, j: nat, limit: nat)
    requires i <= j <= |run|
  {
    forall k :: i <= k < j && Asks(run[k], w, key) ==> LimitOf(run[k]) <= limit
  }

  /** Within a window that no wipe interrupts, a key gets at most its limit. */
  lemma {:induction false} WindowBound(start: real, run: seq<Call>, w: Which, key: string, i: nat, j: nat, limit: nat)
    requires Timed(start, run) && i < j <= |run| && run[j - 1].at - run[i].at < Window(w)
    requires Limited(run, w, key, i, j, limit)
    requires forall k :: i < k < j ==> !Wipes(start, run, k)
    ensures Count(start, run, w, key, i, j) <= limit
    decreases j
  {
    hide Accepted, After, Admit;
    if i == j - 1 {
      if Accepts(start, run, i, w, key) {
        AcceptedExactly(start, run, i, w, key);
      }
      assert Count(start, run, w, key, i, i) == 0;
    } else if Accepts(start, run, j - 1, w, key) {
      AcceptedExactly(start, run, j - 1, w, key);
      CountInAccepted(start, run, w, key, i, j - 1, run[j - 1].at - Window(w));
    } else {
      WindowBound(start, run, w, key, i, j - 1, limit);
    }
  }

  lemma {:induction false} CleanedGrows(start: real, run: seq<Call>, i: nat, j: nat)
    requires Timed(start, run) && i <= j <= |run|
    ensures At(start, run, i).cleanedAt <= At(start, run, j).cleanedAt
    decreases j
  {
    if i < j {
      CleanedGrows(start, run, i, j - 1);
    }
  }

  /** Two wipes are more than an hour apart, whatever session checks come in between. */
  lemma WipesApart(start: real, run: seq<Call>, a: nat, b: nat)
    requires Timed(start, run) && a < b < |run| && Wipes(start, run, a) && Wipes(start, run, b)
    ensures run[b].at - run[a].at > CLEANUP
  {
    assert At(start, run, a + 1).cleanedAt == run[a].at;
    CleanedGrows(start, run, a + 1, b);
  }

  lemma {:induction false} CountSplits(start: real, run: seq<Call>, w: Which, key: string, i: nat, m: nat, j: nat)
    requires i <= m <= j <= |run|
    ensures Count(start, run, w, key, i, j) == Count(start, run, w, key, i, m) + Count(start, run, w, key, m, j)
    decreases j
  {
    if m < j {
      CountSplits(start, run, w, key, i, m, j - 1);
    }
  }

  /** In any window of any run a key gets at most twice its limit. */
  lemma DoubleBound(start: real, run: seq<Call>, w: Which, key: string, i: nat, j: nat, limit: nat)
    requires Timed(start, run) && i < j <= |run| && run[j - 1].at - run[i].at < Window(w)
    requires Limited(run, w, key, i, j, limit)
    ensures Count(start, run, w, key, i, j) <= 2 * limit
  {
    hide At, Accepts, Wipes;
    if m :| i < m < j && Wipes(start, run, m) {
      assert run[m - 1].at <= run[j - 1].at && run[i].at <= run[m].at;
      forall k | m < k < j ensures !Wipes(start, run, k) {
        if Wipes(start, run, k) {
          WipesApart(start, run, m, k);
        }
      }
      forall k | i < k < m ensures !Wipes(start, run, k) {
        if Wipes(start, run, k) {
          WipesApart(start, run, k, m);
        }
      }
      WindowBound(start, run, w, key, i, m, limit);
      WindowBound(start, run, w, key, m, j, limit);
      CountSplits(start, run, w, key, i, m, j);
    } else {
      WindowBound(start, run, w, key, i, j, limit);
    }
  }

  // ---------- The factor two is reached ----------

  /** `limit` calls just before the shared timer runs out, and `limit` just after. */
  function Straddle(limit: nat): seq<Call> {
    seq(2 * limit, i => IpCall("a", limit, if i < limit then 3600.0 else 3601.0))
  }

  lemma {:induction false} StraddleState(limit: nat, n: nat)
    requires n <= 2 * limit
    ensures var l, run := At(0.0, Straddle(limit), n), Straddle(limit);
            && l.cleanedAt == (if n <= limit then 0.0 else 3601.0)
            && |ListOf(l, ByIp, "a")| <= (if n <= limit then n else n - limit)
            && Count(0.0, run, ByIp, "a", 0, n) == n
    decreases n
  {
    if n == 0 {
      CountNone(0.0, Straddle(limit), ByIp, "a", 0);
    } else {
      hide *;
      StraddleState(limit, n - 1);
      StraddleStep(limit, n - 1);
    }
  }

  lemma StraddleStep(limit: nat, n: nat)
    requires n < 2 * limit
    requires var l := At(0.0, Straddle(limit), n);
             && l.cleanedAt == (if n <= limit then 0.0 else 3601.0)
             && |ListOf(l, ByIp, "a")| <= (if n <= limit then n else n - limit)
    ensures var l := At(0.0, Straddle(limit), n + 1);
            && l.cleanedAt == (if n + 1 <= limit then 0.0 else 3601.0)
            && |ListOf(l, ByIp, "a")| <= (if n + 1 <= limit then n + 1 else n + 1 - limit)
    ensures Count(0.0, Straddle(limit), ByIp, "a", 0, n + 1) == Count(0.0, Straddle(limit), ByIp, "a", 0, n) + 1
  {
    hide At, After, ListOf;
    var run := Straddle(limit);
    var l, c := At(0.0, run, n), run[n];
    Unfold(0.0, run, n, ByIp, "a");
    ListOfCleaned(l, c, ByIp, "a");
    AfterShorter(ListOf(Cleaned(l, c), ByIp, "a"), c.at - 60.0);
    ListOfSet(Cleaned(l, c), ByIp, "a", Recent(l, c) + [c.at], ByIp, "a");
  }

  lemma {:induction false} AfterShorter(times: seq<real>, cutoff: real)
    ensures |After(times, cutoff)| <= |times|
  {
    if times != [] {
      AfterShorter(times[..|times| - 1], cutoff);
    }
  }

  /** For every limit there is a run that gets twice as many calls through within one second. */
  lemma DoubleReached(limit: nat)
    requires limit > 0
    ensures var run := Straddle(limit);
            && Timed(0.0, run) && |run| == 2 * limit && Limited(run, ByIp, "a", 0, 2 * limit, limit)
            && run[2 * limit - 1].at - run[0].at < Window(ByIp)
            && Count(0.0, run, ByIp, "a", 0, 2 * limit) == 2 * limit
  {
    StraddleState(limit, 2 * limit);
  }
}
