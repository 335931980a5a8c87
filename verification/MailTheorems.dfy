/** What every run of the mailbox guarantees. */
module MailTheorems {
  import opened Wrappers
  import opened Mailbox
  import opened MailRuns

  lemma {:induction false} NowGrows(run: seq<Action>, i: nat, j: nat)
    requires i <= j <= |run|
    ensures At(run, i).now <= At(run, j).now && At(run, i).b.nextId <= At(run, j).b.nextId
    ensures At(run, i).ids <= At(run, j).ids && At(run, i).tokens <= At(run, j).tokens
    decreases j
  {
    hide *;
    if i < j {
      NowGrows(run, i, j - 1);
      OneStep(run, j - 1);
    }
  }

  lemma OneStep(run: seq<Action>, k: nat)
    requires k < |run|
    ensures var s, s' := At(run, k), At(run, k + 1);
            && Inv(s) && Inv(s') && RowsMove(s.b, s'.b) && PendingMoves(s, run[k], s')
            && s.now <= s'.now && s.tokens <= s'.tokens && s.b.nextId <= s'.b.nextId && s.ids <= s'.ids
  {
    InvAt(run, k);
    InvAt(run, k + 1);
    StepMoves(At(run, k), run[k]);
    StepPending(At(run, k), run[k]);
    Forward(At(run, k), run[k]);
  }

  lemma Forward(s: State, a: Action)
    ensures s.now <= Step(s, a).now && s.tokens <= Step(s, a).tokens
  {
  }

  // ---------- Rows ----------

  lemma StaysGone(b: Box, b': Box, id: nat)
    requires RowsMove(b, b') && id < b.nextId && id !in b.queue
    ensures id !in b'.queue
  {
  }

  lemma {:induction false} GoneForGood(run: seq<Action>, i: nat, j: nat, id: nat)
    requires i <= j <= |run|
    requires id < At(run, i).b.nextId && id !in At(run, i).b.queue
    ensures id !in At(run, j).b.queue
    decreases j
  {
    hide *;
    if i < j {
      GoneForGood(run, i, j - 1, id);
      NowGrows(run, i, j - 1);
      OneStep(run, j - 1);
      StaysGone(At(run, j - 1).b, At(run, j).b, id);
    }
  }

  /** A queued row never changes. */
  lemma {:induction false} RowKept(run: seq<Action>, i: nat, j: nat, id: nat)
    requires i <= j <= |run|
    requires id in At(run, i).b.queue && id in At(run, j).b.queue
    ensures At(run, j).b.queue[id] == At(run, i).b.queue[id]
    decreases j
  {
    if i < j {
      hide At, PendingMoves;
      InvAt(run, i);
      NowGrows(run, i, j - 1);
      OneStep(run, j - 1);
      RowKept(run, i, j - 1, id);
    }
  }

  ghost predicate Leaves(run: seq<Action>, k: nat, id: nat)
    requires k < |run|
  {
    id in At(run, k).b.queue && id !in At(run, k + 1).b.queue
  }

  lemma LeavesOnce(run: seq<Action>, i: nat, j: nat, id: nat)
    requires i < |run| && j < |run| && Leaves(run, i, id) && Leaves(run, j, id)
    ensures i == j
  {
    hide Step, RowsMove, PendingMoves;
    if i < j {
      OneStep(run, i);
      InvAt(run, i);
      NowGrows(run, i, i + 1);
      GoneForGood(run, i + 1, j, id);
    } else if j < i {
      OneStep(run, j);
      InvAt(run, j);
      NowGrows(run, j, j + 1);
      GoneForGood(run, j + 1, i, id);
    }
  }

  /** Mailbox conservation: every id ever given out is either still queued or left at exactly one step. */
  lemma {:induction false} Accounted(run: seq<Action>, n: nat, id: nat)
    requires n <= |run| && 0 < id < At(run, n).b.nextId
    ensures id in At(run, n).b.queue <==> !exists k :: 0 <= k < n && Leaves(run, k, id)
    ensures forall i, j :: 0 <= i < n && 0 <= j < n && Leaves(run, i, id) && Leaves(run, j, id) ==> i == j
    decreases n
  {
    forall i, j | 0 <= i < n && 0 <= j < n && Leaves(run, i, id) && Leaves(run, j, id) ensures i == j {
      LeavesOnce(run, i, j, id);
    }
    if n > 0 {
      hide Step, Inv, PendingMoves;
      OneStep(run, n - 1);
      if id < At(run, n - 1).b.nextId {
        Accounted(run, n - 1, id);
        assert id in At(run, n - 1).b.queue && id !in At(run, n).b.queue ==> Leaves(run, n - 1, id);
      } else {
        NotYet(run, n, id);
      }
    }
  }

  lemma NotYet(run: seq<Action>, n: nat, id: nat)
    requires 0 < n <= |run| && At(run, n - 1).b.nextId <= id
    ensures forall k :: 0 <= k < n ==> !Leaves(run, k, id)
  {
    hide Step, RowsMove, PendingMoves;
    forall k | 0 <= k < n ensures !Leaves(run, k, id) {
      NowGrows(run, k, n - 1);
      InvAt(run, k);
    }
  }

  /** The event whose row this is has expired. */
  predicate EventOver(s: State, id: nat) {
    exists key :: key in s.b.events && s.b.events[key].row == Some(id) && s.b.events[key].expires < s.now
  }

  /** Why step `a` may take row `id` away. */
  predicate Justified(s: State, a: Action, id: nat)
    requires id in s.b.queue
  {
    var row := s.b.queue[id];
    match a
    case Tick(_) => false
    case Client(FetchPending(u, _, _)) => row.receiver == u && !Leased(s.b, u, id, s.now) && Stale(row.payload, s.now)
    case Client(AckPending(u, token, requested)) =>
      && row.receiver == u && id in LeasedUnder(s.b, u, token, s.now)
      && (requested == {} || id in requested)
    case Client(DrainPending(u)) => row.receiver == u
    case Upkeep(HealLeases) => false
    case Upkeep(CleanUpBox) => row.createdAt + RETENTION < s.now || EventOver(s, id)
    case Upkeep(PurgeUser(u)) => Mentions(row, u)
    case Online(RouteMessage(m, _, _)) => m.event.Some? && EventOver(s, id)
    case Online(AckDelivery(d)) =>
      && d in s.b.pending && s.b.pending[d].event.Some? && row.receiver == s.b.pending[d].to
      && var key := EventKey(s.b.pending[d].sender, s.b.pending[d].to, s.b.pending[d].event.value);
         key in s.b.events && s.b.events[key].row == Some(id)
    case Online(TimeOut(_)) => false
    case Online(Enqueue(_, _)) => false
  }

  lemma OnlineJustified(s: State, a: OnlineAction, id: nat)
    requires IdsOk(s.b) && id in s.b.queue && id !in OnlineStep(s, a).b.queue
    ensures Justified(s, Online(a), id)
  {
    hide Await, Reached, Known;
  }

  lemma ClientJustified(s: State, a: ClientAction, id: nat)
    requires id in s.b.queue && id !in ClientStep(s, a).b.queue
    ensures Justified(s, Client(a), id)
  {
    if a.FetchPending? {
      hide Picked;
      PickedLowest(s.b, a.u, a.limit, s.now);
    }
  }

  /** A message leaves the mailbox only for one of these reasons. */
  lemma RemovalJustified(run: seq<Action>, k: nat, id: nat)
    requires k < |run| && Leaves(run, k, id)
    ensures Justified(At(run, k), run[k], id)
  {
    hide OnlineStep, ClientStep, Justified;
    InvAt(run, k);
    var s := At(run, k);
    match run[k]
    case Online(a) => OnlineJustified(s, a, id);
    case Client(a) => ClientJustified(s, a, id);
    case Upkeep(a) => UpkeepJustified(s, a, id);
    case Tick(_) =>
  }

  lemma UpkeepJustified(s: State, a: UpkeepAction, id: nat)
    requires id in s.b.queue && id !in UpkeepStep(s, a).b.queue
    ensures Justified(s, Upkeep(a), id)
  {
  }

  // ---------- Leases ----------

  ghost predicate Gets(run: seq<Action>, k: nat, u: UserId, id: nat)
    requires k < |run|
  {
    && run[k].Client? && run[k].client.FetchPending? && run[k].client.u == u
    && run[k].client.token !in At(run, k).tokens
    && Taken(At(run, k).b, u, run[k].client.limit, At(run, k).now, id)
  }

  ghost predicate AcksToken(a: Action, u: UserId, token: Token) {
    a.Client? && a.client.AckPending? && a.client.u == u && a.client.token == token
  }

  /** The row is gone, or its lease still stands as it was given. */
  ghost predicate Held(s: State, id: nat, l: Lease) {
    && id < s.b.nextId
    && (id in s.b.queue ==> s.b.queue[id].receiver == l.receiver && id in s.b.leases && s.b.leases[id] == l)
  }

  lemma FetchHolds(s: State, u: UserId, limit: int, token: Token, id: nat, l: Lease)
    requires IdsOk(s.b) && Held(s, id, l) && s.now < l.expires
    ensures Held(ClientStep(s, FetchPending(u, limit, token)), id, l)
  {
    hide Picked;
    PickedLowest(s.b, u, limit, s.now);
  }

  lemma ClientHolds(s: State, a: ClientAction, id: nat, l: Lease)
    requires IdsOk(s.b) && Held(s, id, l) && s.now < l.expires && !AcksToken(Client(a), l.receiver, l.token)
    ensures Held(ClientStep(s, a), id, l)
  {
    if a.FetchPending? {
      FetchHolds(s, a.u, a.limit, a.token, id, l);
    }
  }

  lemma StepHolds(s: State, a: Action, id: nat, l: Lease)
    requires IdsOk(s.b) && Held(s, id, l) && s.now < l.expires && !AcksToken(a, l.receiver, l.token)
    ensures Held(Step(s, a), id, l)
  {
    hide ClientStep, Route;
    match a
    case Client(x) => ClientHolds(s, x, id, l);
    case Online(RouteMessage(m, sends, noticeOk)) =>
      RouteMoves(s.b, m, sends, noticeOk, s.now);
      RouteLeases(s.b, m, sends, noticeOk, s.now);
    case _ =>
  }

  lemma RouteLeases(b: Box, m: Message, sends: seq<Send>, noticeOk: bool, now: Time)
    ensures Route(b, m, sends, noticeOk, now).leases == b.leases
  {
    hide Await, Reached, Known;
  }

  lemma {:induction false} LeaseHolds(run: seq<Action>, i: nat, j: nat, id: nat, l: Lease)
    requires i <= j <= |run| && Held(At(run, i), id, l)
    requires At(run, j).now < l.expires
    requires forall k :: i <= k < j ==> !AcksToken(run[k], l.receiver, l.token)
    ensures Held(At(run, j), id, l)
    decreases j
  {
    if i < j {
      hide Step, Held;
      NowGrows(run, j - 1, j);
      LeaseHolds(run, i, j - 1, id, l);
      InvAt(run, j - 1);
      StepHolds(At(run, j - 1), run[j - 1], id, l);
    }
  }

  lemma GetsHolds(run: seq<Action>, i: nat, u: UserId, id: nat)
    requires i < |run| && Gets(run, i, u, id)
    ensures Held(At(run, i + 1), id, Lease(u, run[i].client.token, At(run, i).now + LEASE))
  {
    hide Picked;
    InvAt(run, i);
    PickedLowest(At(run, i).b, u, run[i].client.limit, At(run, i).now);
  }

  /** Lease exclusivity: if two fetches hand out the same message, they are the same user's, and in between
      the first lease ran out or that user sent an acknowledgement on its token. */
  lemma LeaseExclusive(run: seq<Action>, i: nat, j: nat, u: UserId, v: UserId, id: nat)
    requires i < j < |run| && Gets(run, i, u, id) && Gets(run, j, v, id)
    ensures u == v
    ensures At(run, i).now + LEASE <= At(run, j).now
            || exists k :: i < k < j && AcksToken(run[k], u, run[i].client.token)
  {
    hide Step, Picked, Held, Inv;
    var s, l := At(run, j), Lease(u, run[i].client.token, At(run, i).now + LEASE);
    GetsHolds(run, i, u, id);
    PickedLowest(s.b, v, run[j].client.limit, s.now);
    PickedLowest(At(run, i).b, u, run[i].client.limit, At(run, i).now);
    RowKept(run, i, j, id);
    if s.now < l.expires && forall k :: i < k < j ==> !AcksToken(run[k], u, run[i].client.token) {
      LeaseHolds(run, i + 1, j, id, l);
      HeldNotFree(s, id, l, v);
    }
  }

  lemma HeldNotFree(s: State, id: nat, l: Lease, v: UserId)
    requires Held(s, id, l) && s.now < l.expires
    ensures id !in Available(s.b, v, s.now)
  {
  }

  /** Every lease on a queued message is its receiver's. */
  lemma LeaseReceiver(run: seq<Action>, n: nat, id: nat)
    requires n <= |run| && id in At(run, n).b.leases && id in At(run, n).b.queue
    ensures At(run, n).b.leases[id].receiver == At(run, n).b.queue[id].receiver
  {
    InvAt(run, n);
    assert LeaseOk(At(run, n), id, At(run, n).b.leases[id]);
  }

  // ---------- Online deliveries ----------

  ghost predicate Registers(run: seq<Action>, r: nat, d: DeliveryId)
    requires r < |run|
  {
    d in At(run, r + 1).b.pending && d !in At(run, r).b.pending
  }

  ghost predicate Ends(run: seq<Action>, k: nat, d: DeliveryId)
    requires k < |run|
  {
    d in At(run, k).b.pending && d !in At(run, k + 1).b.pending
  }

  lemma PendingStep(s: State, a: Action, s': State, d: DeliveryId)
    requires PendingMoves(s, a, s') && d in s.ids
    ensures d in s'.ids && (d in s'.b.pending ==> d in s.b.pending && s'.b.pending[d] == s.b.pending[d])
  {
  }

  /** A delivery keeps what it was registered with, and is never registered again. */
  lemma {:induction false} PendingKept(run: seq<Action>, i: nat, j: nat, d: DeliveryId)
    requires i <= j <= |run| && d in At(run, i).ids
    ensures d in At(run, j).ids
    ensures d in At(run, j).b.pending ==> d in At(run, i).b.pending && At(run, j).b.pending[d] == At(run, i).b.pending[d]
    decreases j
  {
    hide *;
    if i < j {
      PendingKept(run, i, j - 1, d);
      OneStep(run, j - 1);
      PendingStep(At(run, j - 1), run[j - 1], At(run, j), d);
    }
  }

  /** Each delivery ends once, by its own acknowledgement or, when due, by its own timeout. */
  lemma DeliveryEndsOnce(run: seq<Action>, i: nat, j: nat, d: DeliveryId)
    requires i <= j < |run| && Ends(run, i, d) && Ends(run, j, d)
    ensures i == j
    ensures run[i] == Online(AckDelivery(d)) || (run[i] == Online(TimeOut(d)) && At(run, i).b.pending[d].expires <= At(run, i).now)
  {
    hide Step, RowsMove;
    InvAt(run, i);
    OneStep(run, i);
    if i < j {
      PendingKept(run, i + 1, j, d);
    }
  }

  /** A registered delivery is pending until it ends. */
  lemma {:induction false} DeliveryAccounted(run: seq<Action>, i: nat, n: nat, d: DeliveryId)
    requires i <= n <= |run| && d in At(run, i).b.pending
    ensures d in At(run, n).b.pending <==> !exists k :: i <= k < n && Ends(run, k, d)
    decreases n
  {
    if i < n {
      hide Step, Inv, RowsMove, PendingMoves;
      DeliveryAccounted(run, i, n - 1, d);
      if d in At(run, n - 1).b.pending {
        assert d !in At(run, n).b.pending ==> Ends(run, n - 1, d);
      } else {
        PendingIn(run, i, d);
        PendingKept(run, i, n - 1, d);
        PendingKept(run, n - 1, n, d);
      }
    }
  }

  lemma PendingIn(run: seq<Action>, i: nat, d: DeliveryId)
    requires i <= |run| && d in At(run, i).b.pending
    ensures d in At(run, i).ids
  {
    hide Step;
    InvAt(run, i);
  }

  ghost predicate TimesOutIntoRow(run: seq<Action>, k: nat, d: DeliveryId)
    requires k < |run|
  {
    run[k] == Online(TimeOut(d)) && At(run, k + 1).b.nextId != At(run, k).b.nextId
  }

  /** One delivery id causes at most one mailbox row over the whole run. */
  lemma DeliveryOneRow(run: seq<Action>, i: nat, j: nat, d: DeliveryId)
    requires i <= j < |run| && TimesOutIntoRow(run, i, d) && TimesOutIntoRow(run, j, d)
    ensures i == j && At(run, i + 1).b.nextId == At(run, i).b.nextId + 1
    ensures forall k :: 0 <= k < |run| && Ends(run, k, d) ==> k == i
  {
    assert Ends(run, i, d) && Ends(run, j, d);
    assert At(run, i + 1).b.nextId == At(run, i).b.nextId + 1;
    hide Step;
    DeliveryEndsOnce(run, i, j, d);
    forall k | 0 <= k < |run| && Ends(run, k, d) ensures k == i {
      if k <= i {
        DeliveryEndsOnce(run, k, i, d);
      } else {
        DeliveryEndsOnce(run, i, k, d);
      }
    }
  }

  // ---------- No message lost ----------

  ghost predicate Born(run: seq<Action>, k: nat, id: nat)
    requires k < |run|
  {
    At(run, k).b.nextId <= id < At(run, k + 1).b.nextId
  }

  /** Row `id` was made by routing step r, or by the timeout of a delivery registered there. */
  ghost predicate Stems(run: seq<Action>, r: nat, id: nat)
    requires r < |run|
  {
    exists k :: r <= k < |run| && Born(run, k, id) && (k == r || TimesOutFor(run, r, k))
  }

  ghost predicate TimesOutFor(run: seq<Action>, r: nat, k: nat)
    requires r < |run| && k < |run|
  {
    run[k].Online? && run[k].online.TimeOut? && Registers(run, r, run[k].online.id)
  }

  ghost predicate Queued(run: seq<Action>, r: nat, n: nat, m: Message, id: nat)
    requires r < n <= |run|
  {
    && id in At(run, n).b.queue && Stems(run, r, id)
    && At(run, n).b.queue[id].receiver == m.to && At(run, n).b.queue[id].payload == m.payload
  }

  ghost predicate Awaited(run: seq<Action>, r: nat, n: nat, m: Message, d: DeliveryId)
    requires r < n <= |run|
  {
    && d in At(run, n).b.pending && Registers(run, r, d)
    && At(run, n).b.pending[d].to == m.to && At(run, n).b.pending[d].payload == m.payload
    && At(run, n).b.pending[d].event == None
  }

  ghost predicate AckedAt(run: seq<Action>, r: nat, k: nat)
    requires r < |run| && k < |run|
  {
    run[k].Online? && run[k].online.AckDelivery? && Ends(run, k, run[k].online.id) && Registers(run, r, run[k].online.id)
  }

  ghost predicate TakenAt(run: seq<Action>, r: nat, k: nat, id: nat)
    requires r < |run| && k < |run|
  {
    Stems(run, r, id) && Leaves(run, k, id)
  }

  /** Some device acknowledged it online, or a row of it left the mailbox (for a reason of `Justified`). */
  ghost predicate Settled(run: seq<Action>, r: nat, n: nat)
    requires r < n <= |run|
  {
    || (exists k :: r < k < n && AckedAt(run, r, k))
    || (exists k, id :: r < k < n && TakenAt(run, r, k, id))
  }

  ghost predicate Safe(run: seq<Action>, r: nat, n: nat, m: Message)
    requires r < n <= |run|
  {
    || (exists id :: Queued(run, r, n, m, id))
    || (exists d :: Awaited(run, r, n, m, d))
    || Settled(run, r, n)
  }

  predicate Routes(a: Action, m: Message, used: set<DeliveryId>) {
    && a.Online? && a.online.RouteMessage? && a.online.m == m && NewIds(a.online.sends, used)
    && m.to != "" && m.event.None? && (m.tracked || !Reached(a.online.sends))
  }

  lemma SafeAtFirst(run: seq<Action>, r: nat, m: Message)
    requires r < |run| && Routes(run[r], m, At(run, r).ids)
    ensures Safe(run, r, r + 1, m)
  {
    hide Await, Known, Inv;
    var s, sends := At(run, r), run[r].online.sends;
    if Reached(sends) {
      var i :| 0 <= i < |sends| && sends[i].ok;
      var d := sends[i].id;
      AwaitAdds(s.b.pending, sends, DeliveryOf(m, s.now));
      NotPending(run, r, d);
      assert Awaited(run, r, r + 1, m, d);
    } else {
      assert Born(run, r, s.b.nextId);
      assert Queued(run, r, r + 1, m, s.b.nextId);
    }
  }

  lemma NotPending(run: seq<Action>, r: nat, d: DeliveryId)
    requires r <= |run| && d !in At(run, r).ids
    ensures d !in At(run, r).b.pending
  {
    hide Step;
    InvAt(run, r);
  }

  lemma QueuedNext(run: seq<Action>, r: nat, n: nat, m: Message, id: nat)
    requires r < n < |run| && Queued(run, r, n, m, id)
    ensures Safe(run, r, n + 1, m)
  {
    hide Step, RowsMove, PendingMoves, Stems;
    OneStep(run, n);
    if id in At(run, n + 1).b.queue {
      RowKept(run, n, n + 1, id);
      assert Queued(run, r, n + 1, m, id);
    } else {
      assert TakenAt(run, r, n, id);
    }
  }

  lemma AwaitedNext(run: seq<Action>, r: nat, n: nat, m: Message, d: DeliveryId)
    requires r < n < |run| && Awaited(run, r, n, m, d) && m.to != ""
    ensures Safe(run, r, n + 1, m)
  {
    var s, s' := At(run, n), At(run, n + 1);
    if d in s'.b.pending {
      hide Step;
      PendingIn(run, n, d);
      PendingKept(run, n, n + 1, d);
      assert Awaited(run, r, n + 1, m, d);
    } else {
      OneStep(run, n);
      assert Ends(run, n, d);
      if run[n] == Online(AckDelivery(d)) {
        assert AckedAt(run, r, n);
      } else {
        assert run[n] == Online(TimeOut(d));
        assert TimesOutFor(run, r, n) && Born(run, n, s.b.nextId);
        assert Queued(run, r, n + 1, m, s.b.nextId);
      }
    }
  }

  lemma SettledNext(run: seq<Action>, r: nat, n: nat)
    requires r < n < |run| && Settled(run, r, n)
    ensures Settled(run, r, n + 1)
  {
    hide AckedAt, TakenAt;
  }

  /** No message is lost: from the moment a message is routed it is in the mailbox, or waits for an online
      acknowledgement, or was acknowledged online or taken from the mailbox. */
  lemma {:induction false} NoMessageLost(run: seq<Action>, r: nat, n: nat, m: Message)
    requires r < n <= |run| && Routes(run[r], m, At(run, r).ids)
    ensures Safe(run, r, n, m)
    decreases n
  {
    hide At, Queued, Awaited, Settled, Routes;
    if n == r + 1 {
      SafeAtFirst(run, r, m);
    } else {
      var k: nat := n - 1;
      NoMessageLost(run, r, k, m);
      Addressed(run[r], m, At(run, r).ids);
      if id :| Queued(run, r, k, m, id) {
        QueuedNext(run, r, k, m, id);
      } else if d :| Awaited(run, r, k, m, d) {
        AwaitedNext(run, r, k, m, d);
      } else {
        SettledNext(run, r, k);
      }
    }
  }

  lemma Addressed(a: Action, m: Message, used: set<DeliveryId>)
    requires Routes(a, m, used)
    ensures m.to != ""
  {
  }

  // ---------- Lifecycle events ----------

  /** Step k stores a lifecycle envelope under `key`. */
  ghost predicate Persists(run: seq<Action>, k: nat, key: EventKey)
    requires k < |run|
  {
    && run[k].Online? && run[k].online.RouteMessage? && NewIds(run[k].online.sends, At(run, k).ids)
    && run[k].online.m.to != "" && run[k].online.m.event.Some? && KeyOf(run[k].online.m) == key
    && !Known(At(run, k).b, key, At(run, k).now)
  }

  /** Step k enters a lifecycle message in its recipient's unread table. */
  ghost predicate EntersUnread(run: seq<Action>, k: nat, key: EventKey)
    requires k < |run|
  {
    && run[k].Online? && run[k].online.RouteMessage? && NewIds(run[k].online.sends, At(run, k).ids)
    && run[k].online.m.event.Some? && KeyOf(run[k].online.m) == key
    && CountsUnread(At(run, k).b, run[k].online.m, run[k].online.noticeOk, At(run, k).now)
  }

  lemma RouteEvent(b: Box, m: Message, sends: seq<Send>, noticeOk: bool, now: Time, key: EventKey)
    requires Known(b, key, now)
    ensures var b' := Route(b, m, sends, noticeOk, now);
            key in b'.events && b'.events[key] == b.events[key]
  {
    hide Await, Reached;
  }

  lemma EventStep(s: State, a: Action, key: EventKey)
    requires Known(s.b, key, s.now)
    ensures var s' := Step(s, a);
            && key in s'.b.events && s'.b.events[key].expires == s.b.events[key].expires
            && (s'.b.events[key].row == s.b.events[key].row || s'.b.events[key].row == None)
  {
    hide Route, ClientStep;
    match a
    case Online(RouteMessage(m, sends, noticeOk)) => RouteEvent(s.b, m, sends, noticeOk, s.now, key);
    case Client(x) => ClientRemoves(s, x);
    case _ =>
  }

  /** An event stays known for its whole life, and never gets another row. */
  lemma {:induction false} EventStays(run: seq<Action>, i: nat, j: nat, key: EventKey)
    requires i <= j <= |run| && key in At(run, i).b.events && At(run, j).now <= At(run, i).b.events[key].expires
    ensures key in At(run, j).b.events && At(run, j).b.events[key].expires == At(run, i).b.events[key].expires
    ensures At(run, j).b.events[key].row == At(run, i).b.events[key].row || At(run, j).b.events[key].row == None
    decreases j
  {
    if i < j {
      hide Step;
      NowGrows(run, j - 1, j);
      EventStays(run, i, j - 1, key);
      EventStep(At(run, j - 1), run[j - 1], key);
    }
  }

  lemma PersistsRecords(run: seq<Action>, k: nat, key: EventKey)
    requires k < |run| && Persists(run, k, key)
    ensures var s, s' := At(run, k), At(run, k + 1);
            && key in s'.b.events && s'.b.events[key] == Event(Some(s.b.nextId), s.now + EVENT_LIFE)
            && s'.b.nextId == s.b.nextId + 1 && Born(run, k, s.b.nextId)
            && s'.b.queue[s.b.nextId] == Row(key.receiver, run[k].online.m.payload, s.now)
  {
    hide Await, Reached, DeadRows;
  }

  /** Within the two days an event lives, resending it stores it and counts it unread at most once. */
  lemma LifecycleOnce(run: seq<Action>, i: nat, j: nat, key: EventKey)
    requires i < j < |run| && Persists(run, i, key)
    requires Persists(run, j, key) || EntersUnread(run, j, key)
    ensures At(run, i).now + EVENT_LIFE < At(run, j).now
  {
    hide Step;
    PersistsRecords(run, i, key);
    if At(run, j).now <= At(run, i).now + EVENT_LIFE {
      EventStays(run, i + 1, j, key);
    }
  }

  /** The one unread entry is made with the first copy, and exactly when the sender could be told that it was stored. */
  lemma UnreadWithFirst(run: seq<Action>, k: nat, key: EventKey)
    requires k < |run|
    ensures EntersUnread(run, k, key) <==>
              && Persists(run, k, key) && run[k].online.noticeOk && run[k].online.m.counts
              && run[k].online.m.to != run[k].online.m.sender
  {
    hide Step;
  }

  /** So an event whose first notice failed is never counted, although resends of it succeed. */
  lemma UnreadLost(m: Message)
    requires m.event.Some? && m.to != ""
    ensures var run := [Online(RouteMessage(m, [], false)), Online(RouteMessage(m, [], true))];
            && Persists(run, 0, KeyOf(m)) && |At(run, 2).b.queue| == 1
            && !EntersUnread(run, 0, KeyOf(m)) && !EntersUnread(run, 1, KeyOf(m))
  {
    var run := [Online(RouteMessage(m, [], false)), Online(RouteMessage(m, [], true))];
    assert At(run, 0) == EMPTY;
    assert Persists(run, 0, KeyOf(m));
    PersistsRecords(run, 0, KeyOf(m));
    FirstStored(run, m);
  }

  lemma FirstStored(run: seq<Action>, m: Message)
    requires m.event.Some? && m.to != ""
    requires run == [Online(RouteMessage(m, [], false)), Online(RouteMessage(m, [], true))]
    ensures At(run, 1).now == 0 && At(run, 2).b.queue == At(run, 1).b.queue == map[1 := Row(m.to, m.payload, 0)]
    ensures Known(At(run, 1).b, KeyOf(m), 0)
  {
    hide Await;
    assert At(run, 0) == EMPTY;
    assert At(run, 1) == Step(EMPTY, run[0]);
    assert DeadRows(EMPTY.b, 0) == {} && DeadEvents(EMPTY.b, 0) == {};
    assert DeadRows(At(run, 1).b, 0) == {} && DeadEvents(At(run, 1).b, 0) == {};
  }

  ghost predicate StoredFor(run: seq<Action>, r: nat, key: EventKey, id: nat)
    requires r < |run|
  {
    Persists(run, r, key) && At(run, r).b.nextId == id
  }

  /** The row an event points at is the one stored for that very event: neither the expiry of events nor an
      online acknowledgement can delete any other row. */
  lemma {:induction false} EventRowIsItsOwn(run: seq<Action>, n: nat, key: EventKey, id: nat)
    requires n <= |run| && key in At(run, n).b.events && At(run, n).b.events[key].row == Some(id)
    ensures exists r :: 0 <= r < n && StoredFor(run, r, key, id)
    decreases n
  {
    if n > 0 {
      var s := At(run, n - 1);
      hide Step, Persists;
      if key in s.b.events && s.b.events[key].row == Some(id) {
        EventRowIsItsOwn(run, n - 1, key, id);
        var r :| 0 <= r < n - 1 && StoredFor(run, r, key, id);
        assert 0 <= r < n;
      } else {
        StoredNow(run, n - 1, key, id);
        assert StoredFor(run, n - 1, key, id);
      }
    }
  }

  lemma RequeueEvents(b: Box, d: Delivery, now: Time)
    ensures Requeue(b, d, now).events == b.events
  {
  }

  /** A new row of an event comes from storing it. */
  lemma EventFromBefore(s: State, a: Action, key: EventKey)
    requires key in Step(s, a).b.events && Step(s, a).b.events[key].row.Some?
    requires !(key in s.b.events && s.b.events[key].row == Step(s, a).b.events[key].row)
    ensures a.Online? && a.online.RouteMessage? && NewIds(a.online.sends, s.ids)
    ensures a.online.m.to != "" && a.online.m.event.Some? && KeyOf(a.online.m) == key && !Known(s.b, key, s.now)
    ensures Step(s, a).b.events[key].row == Some(s.b.nextId)
  {
    hide ClientStep, Await, Reached, DeadRows, Requeue;
    if a.Client? {
      ClientRemoves(s, a.client);
    } else if a.Online? && a.online.TimeOut? && a.online.id in s.b.pending {
      RequeueEvents(s.b.(pending := s.b.pending - {a.online.id}), s.b.pending[a.online.id], s.now);
    }
  }

  lemma StoredNow(run: seq<Action>, k: nat, key: EventKey, id: nat)
    requires k < |run| && key in At(run, k + 1).b.events && At(run, k + 1).b.events[key].row == Some(id)
    requires !(key in At(run, k).b.events && At(run, k).b.events[key].row == Some(id))
    ensures StoredFor(run, k, key, id)
  {
    EventFromBefore(At(run, k), run[k], key);
    hide Step;
  }

  /** An online acknowledgement takes the stored copy away for good, and no resend brings it back. */
  lemma LifecycleAckFinal(run: seq<Action>, k: nat, n: nat, d: DeliveryId, id: nat, key: EventKey)
    requires k < n <= |run| && run[k] == Online(AckDelivery(d)) && d in At(run, k).b.pending
    requires At(run, k).b.pending[d].event.Some?
    requires key == EventKey(At(run, k).b.pending[d].sender, At(run, k).b.pending[d].to, At(run, k).b.pending[d].event.value)
    requires key in At(run, k).b.events && At(run, k).b.events[key].row == Some(id)
    ensures id !in At(run, n).b.queue
    ensures At(run, n).now <= At(run, k).b.events[key].expires ==>
              && key in At(run, n).b.events && At(run, n).b.events[key].row == None
              && forall j :: k < j < n ==> !Persists(run, j, key)
  {
    hide *;
    AckedRow(run, k, d, id, key);
    GoneForGood(run, k + 1, n, id);
    if At(run, n).now <= At(run, k).b.events[key].expires {
      EventStays(run, k + 1, n, key);
      NotStoredAgain(run, k + 1, n, key);
    }
  }

  lemma NotStoredAgain(run: seq<Action>, i: nat, n: nat, key: EventKey)
    requires i <= n <= |run| && key in At(run, i).b.events && At(run, n).now <= At(run, i).b.events[key].expires
    ensures forall j :: i <= j < n ==> !Persists(run, j, key)
  {
    hide At, Persists;
    forall j | i <= j < n ensures !Persists(run, j, key) {
      NowGrows(run, j, n);
      EventStays(run, i, j, key);
      KnownNotStored(run, j, key);
    }
  }

  lemma KnownNotStored(run: seq<Action>, j: nat, key: EventKey)
    requires j < |run| && Known(At(run, j).b, key, At(run, j).now)
    ensures !Persists(run, j, key)
  {
    hide Step;
  }

  lemma AckedRow(run: seq<Action>, k: nat, d: DeliveryId, id: nat, key: EventKey)
    requires k < |run| && run[k] == Online(AckDelivery(d)) && d in At(run, k).b.pending
    requires At(run, k).b.pending[d].event.Some?
    requires key == EventKey(At(run, k).b.pending[d].sender, At(run, k).b.pending[d].to, At(run, k).b.pending[d].event.value)
    requires key in At(run, k).b.events && At(run, k).b.events[key].row == Some(id)
    ensures id !in At(run, k + 1).b.queue && id < At(run, k + 1).b.nextId
    ensures key in At(run, k + 1).b.events && At(run, k + 1).b.events[key] == At(run, k).b.events[key].(row := None)
  {
    InvAt(run, k);
    assert EventOk(At(run, k).b, At(run, k).now, key, At(run, k).b.events[key]);
  }
}
