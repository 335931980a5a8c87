/** All interleavings of the mailbox transactions. Tokens and delivery ids are
    drawn at random, so a drawn one is new; `tokens` and `ids` record them. */
module MailRuns {
  import opened Wrappers
  import opened Sorting
  import opened Mailbox

  datatype State = State(b: Box, now: Time, tokens: set<Token>, ids: set<DeliveryId>)

  datatype Action =
    | Tick(d: nat)
    | Online(online: OnlineAction)
    | Client(client: ClientAction)
    | Upkeep(upkeep: UpkeepAction)

  datatype OnlineAction =
    | RouteMessage(m: Message, sends: seq<Send>, noticeOk: bool)
    | AckDelivery(id: DeliveryId)
    | TimeOut(id: DeliveryId)
    | Enqueue(u: UserId, p: Payload)

  datatype ClientAction =
    | FetchPending(u: UserId, limit: int, token: Token)
    | AckPending(u: UserId, token: Token, requested: set<int>)
    | DrainPending(u: UserId)

  datatype UpkeepAction = HealLeases | CleanUpBox | PurgeUser(u: UserId)

  predicate NewIds(sends: seq<Send>, used: set<DeliveryId>) {
    && (forall i :: 0 <= i < |sends| ==> sends[i].id !in used)
    && (forall i, j :: 0 <= i < j < |sends| ==> sends[i].id != sends[j].id)
  }

  function IdsOf(sends: seq<Send>): set<DeliveryId> {
    set i | 0 <= i < |sends| :: sends[i].id
  }

  function OnlineStep(s: State, a: OnlineAction): State {
    match a
    case RouteMessage(m, sends, noticeOk) =>
      if NewIds(sends, s.ids) then s.(b := Route(s.b, m, sends, noticeOk, s.now), ids := s.ids + IdsOf(sends)) else s
    case AckDelivery(id) => s.(b := DeliveryAck(s.b, id))
    case TimeOut(id) => s.(b := Overdue(s.b, id, s.now))
    case Enqueue(u, p) => s.(b := Insert(s.b, u, p, s.now))
  }

  function ClientStep(s: State, a: ClientAction): State {
    match a
    case FetchPending(u, limit, token) =>
      if token in s.tokens then s else s.(b := Fetch(s.b, u, limit, token, s.now), tokens := s.tokens + {token})
    case AckPending(u, token, requested) => s.(b := Ack(s.b, u, token, requested, s.now))
    case DrainPending(u) => s.(b := Drain(s.b, u))
  }

  function UpkeepStep(s: State, a: UpkeepAction): State {
    match a
    case HealLeases => s.(b := Heal(s.b, s.now))
    case CleanUpBox => s.(b := CleanUp(s.b, s.now))
    case PurgeUser(u) => s.(b := Purge(s.b, u))
  }

  function Step(s: State, a: Action): State {
    match a
    case Tick(d) => s.(now := s.now + d)
    case Online(x) => OnlineStep(s, x)
    case Client(x) => ClientStep(s, x)
    case Upkeep(x) => UpkeepStep(s, x)
  }

  const EMPTY: State := State(Box(map[], 1, map[], map[], map[]), 0, {}, {})

  function At(run: seq<Action>, n: nat): State
    requires n <= |run|
  {
    if n == 0 then EMPTY else Step(At(run, n - 1), run[n - 1])
  }

  // ---------- The invariant ----------

  predicate LeaseOk(s: State, id: nat, l: Lease) {
    && id < s.b.nextId && l.token in s.tokens && l.expires <= s.now + LEASE
    && (id in s.b.queue ==> s.b.queue[id].receiver == l.receiver)
  }

  predicate EventOk(b: Box, now: Time, key: EventKey, e: Event) {
    && e.expires <= now + EVENT_LIFE
    && (e.row.Some? ==> e.row.value < b.nextId && (e.row.value in b.queue ==> b.queue[e.row.value].receiver == key.receiver))
  }

  ghost predicate LeasesOk(s: State) {
    forall id :: id in s.b.leases ==> LeaseOk(s, id, s.b.leases[id])
  }

  ghost predicate EventsOk(b: Box, now: Time) {
    forall key :: key in b.events ==> EventOk(b, now, key, b.events[key])
  }

  ghost predicate PendingOk(s: State) {
    forall d :: d in s.b.pending ==> d in s.ids
  }

  ghost predicate IdsOk(b: Box) {
    b.nextId > 0 && forall id :: id in b.queue ==> 0 < id < b.nextId
  }

  ghost predicate Inv(s: State) {
    IdsOk(s.b) && LeasesOk(s) && EventsOk(s.b, s.now) && PendingOk(s)
  }

  /** Rows are immutable; ids are drawn from nextId upwards, and a drawn id gets a row. */
  ghost predicate RowsMove(b: Box, b': Box) {
    && b.nextId <= b'.nextId
    && (forall id :: id in b'.queue && id < b.nextId ==> id in b.queue && b'.queue[id] == b.queue[id])
    && (forall id :: b.nextId <= id < b'.nextId ==> id in b'.queue)
    && IdsOk(b')
  }

  /** The transactions that only take rows away. */
  ghost predicate Removes(b: Box, b': Box) {
    b'.nextId == b.nextId && forall id :: id in b'.queue ==> id in b.queue && b'.queue[id] == b.queue[id]
  }

  lemma RemovesMoves(b: Box, b': Box)
    requires Removes(b, b') && IdsOk(b)
    ensures RowsMove(b, b')
  {
  }

  lemma ClientRemoves(s: State, a: ClientAction)
    ensures Removes(s.b, ClientStep(s, a).b)
    ensures ClientStep(s, a).b.events == s.b.events && ClientStep(s, a).b.pending == s.b.pending
  {
    hide Picked, Taken;
  }

  lemma UpkeepRemoves(s: State, a: UpkeepAction)
    ensures Removes(s.b, UpkeepStep(s, a).b)
    ensures UpkeepStep(s, a).b.pending == s.b.pending
  {
  }

  lemma PersistMoves(b: Box, key: EventKey, p: Payload, now: Time)
    requires IdsOk(b)
    ensures RowsMove(b, Persist(b, key, p, now))
  {
    hide DeadRows, DeadEvents;
  }

  lemma RouteMoves(b: Box, m: Message, sends: seq<Send>, noticeOk: bool, now: Time)
    requires IdsOk(b)
    ensures RowsMove(b, Route(b, m, sends, noticeOk, now))
  {
    hide Persist, Await;
    if m.event.Some? {
      PersistMoves(b, KeyOf(m), m.payload, now);
    }
  }

  lemma StepMoves(s: State, a: Action)
    requires IdsOk(s.b)
    ensures RowsMove(s.b, Step(s, a).b)
  {
    hide Route, ClientStep, UpkeepStep;
    match a
    case Tick(d) =>
    case Online(x) =>
      if x.RouteMessage? {
        RouteMoves(s.b, x.m, x.sends, x.noticeOk, s.now);
      }
    case Client(x) =>
      ClientRemoves(s, x);
      RemovesMoves(s.b, ClientStep(s, x).b);
    case Upkeep(x) =>
      UpkeepRemoves(s, x);
      RemovesMoves(s.b, UpkeepStep(s, x).b);
  }

  // ---------- The invariant is kept ----------

  lemma FetchLeasesOk(s: State, u: UserId, limit: int, token: Token)
    requires Inv(s)
    ensures LeasesOk(ClientStep(s, FetchPending(u, limit, token)))
  {
    hide Picked;
    PickedLowest(s.b, u, limit, s.now);
  }

  lemma StepLeases(s: State, a: Action)
    requires Inv(s)
    ensures LeasesOk(Step(s, a))
  {
    hide RowsMove, Route, Overdue, DeliveryAck;
    StepMoves(s, a);
    var s' := Step(s, a);
    if a.Client? && a.client.FetchPending? {
      FetchLeasesOk(s, a.client.u, a.client.limit, a.client.token);
    } else {
      StepKeepsLeases(s, a);
      LeasesAfter(s, s');
    }
  }

  lemma LeasesAfter(s: State, s': State)
    requires Inv(s) && RowsMove(s.b, s'.b) && s.now <= s'.now && s.tokens <= s'.tokens
    requires forall id :: id in s'.b.leases ==> id in s.b.leases && s'.b.leases[id] == s.b.leases[id]
    ensures LeasesOk(s')
  {
  }

  lemma StepKeepsLeases(s: State, a: Action)
    requires !(a.Client? && a.client.FetchPending?)
    ensures var s' := Step(s, a);
            && s.now <= s'.now && s.tokens <= s'.tokens
            && forall id :: id in s'.b.leases ==> id in s.b.leases && s'.b.leases[id] == s.b.leases[id]
  {
    hide Await, Known;
  }

  lemma EventsAfter(b: Box, b': Box, now: Time, now': Time)
    requires EventsOk(b, now) && RowsMove(b, b') && now <= now'
    requires forall key :: key in b'.events ==>
               key in b.events && b'.events[key].expires == b.events[key].expires
               && (b'.events[key].row == b.events[key].row || b'.events[key].row == None)
    ensures EventsOk(b', now')
  {
  }

  lemma PersistEvents(b: Box, key: EventKey, p: Payload, now: Time)
    requires EventsOk(b, now) && IdsOk(b)
    ensures EventsOk(Persist(b, key, p, now), now)
  {
    hide DeadRows;
    PersistMoves(b, key, p, now);
  }

  lemma InsertEvents(b: Box, u: UserId, p: Payload, now: Time)
    requires EventsOk(b, now)
    ensures EventsOk(Insert(b, u, p, now), now)
  {
  }

  lemma OverdueEvents(b: Box, id: DeliveryId, now: Time)
    requires EventsOk(b, now)
    ensures EventsOk(Overdue(b, id, now), now)
  {
  }

  lemma RouteEvents(b: Box, m: Message, sends: seq<Send>, noticeOk: bool, now: Time)
    requires EventsOk(b, now) && IdsOk(b)
    ensures EventsOk(Route(b, m, sends, noticeOk, now), now)
  {
    hide Persist, Await, Reached;
    if m.event.Some? {
      PersistEvents(b, KeyOf(m), m.payload, now);
    } else {
      InsertEvents(b, m.to, m.payload, now);
    }
  }

  lemma StepEvents(s: State, a: Action)
    requires Inv(s)
    ensures EventsOk(Step(s, a).b, Step(s, a).now)
  {
    hide Route, Overdue, Insert, RowsMove, EventsOk, Picked, Taken, DeadRows;
    StepMoves(s, a);
    match a
    case Online(RouteMessage(m, sends, noticeOk)) => RouteEvents(s.b, m, sends, noticeOk, s.now);
    case Online(TimeOut(id)) => OverdueEvents(s.b, id, s.now);
    case Online(Enqueue(u, p)) => InsertEvents(s.b, u, p, s.now);
    case _ => EventsAfter(s.b, Step(s, a).b, s.now, Step(s, a).now);
  }

  // ---------- Pending deliveries ----------

  lemma {:induction false} AwaitAdds(pending: map<DeliveryId, Delivery>, sends: seq<Send>, d: Delivery)
    ensures var after := Await(pending, sends, d);
            && (forall id :: id in after ==> id in pending || id in IdsOf(sends))
            && (forall id :: id in pending && id !in IdsOf(sends) ==> id in after && after[id] == pending[id])
            && (forall id :: id in after && id in IdsOf(sends) && id !in pending ==> after[id] == d)
            && (forall i :: 0 <= i < |sends| && sends[i].ok ==> sends[i].id in after && after[sends[i].id] == d)
  {
    if sends != [] {
      var rest, last := sends[..|sends| - 1], sends[|sends| - 1];
      AwaitAdds(pending, rest, d);
      assert forall i :: 0 <= i < |rest| ==> rest[i] == sends[i];
      assert forall id :: id in IdsOf(rest) ==> id in IdsOf(sends);
      assert last.id in IdsOf(sends);
      assert forall id :: id in IdsOf(sends) ==> id in IdsOf(rest) || id == last.id;
    }
  }

  /** A delivery id is registered once, keeps what it was registered with, and leaves by its acknowledgement or its timeout. */
  ghost predicate PendingMoves(s: State, a: Action, s': State) {
    && s.ids <= s'.ids
    && (forall d :: d in s'.b.pending && d in s.ids ==> d in s.b.pending && s'.b.pending[d] == s.b.pending[d])
    && (forall d :: d in s'.b.pending ==> d in s'.ids)
    && (forall d :: d in s.b.pending && d !in s'.b.pending ==>
          a == Online(AckDelivery(d)) || (a == Online(TimeOut(d)) && s.b.pending[d].expires <= s.now))
  }

  lemma RoutePending(s: State, m: Message, sends: seq<Send>, noticeOk: bool)
    requires PendingOk(s)
    ensures PendingMoves(s, Online(RouteMessage(m, sends, noticeOk)), OnlineStep(s, RouteMessage(m, sends, noticeOk)))
  {
    hide Await, Reached, Persist;
    if m.event.Some? {
      PersistPending(s.b, KeyOf(m), m.payload, s.now);
    }
    AwaitAdds(s.b.pending, sends, DeliveryOf(m, s.now));
    assert NewIds(sends, s.ids) ==> IdsOf(sends) !! s.ids;
  }

  lemma PersistPending(b: Box, key: EventKey, p: Payload, now: Time)
    ensures Persist(b, key, p, now).pending == b.pending && Persist(b, key, p, now).leases == b.leases
  {
  }

  lemma StepPending(s: State, a: Action)
    requires PendingOk(s)
    ensures PendingMoves(s, a, Step(s, a))
  {
    hide Route;
    match a
    case Online(RouteMessage(m, sends, noticeOk)) => RoutePending(s, m, sends, noticeOk);
    case Client(x) => ClientRemoves(s, x);
    case Upkeep(x) => UpkeepRemoves(s, x);
    case _ =>
  }

  lemma {:induction false} InvAt(run: seq<Action>, n: nat)
    requires n <= |run|
    ensures Inv(At(run, n))
    decreases n
  {
    if n > 0 {
      hide Step;
      InvAt(run, n - 1);
      var s, a := At(run, n - 1), run[n - 1];
      StepMoves(s, a);
      StepLeases(s, a);
      StepEvents(s, a);
      StepPending(s, a);
    }
  }
}
