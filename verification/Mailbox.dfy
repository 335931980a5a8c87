/** The offline mailbox, its leases, the table of lifecycle events and the
    deliveries that wait for an online acknowledgement; one function per
    committed transaction. Times are milliseconds of one clock. */
module Mailbox {
  import opened Wrappers
  import opened Sorting

  type UserId = string
  type Token = string
  type DeliveryId = string
  type Time = int

  const LEASE: nat := 20 * 1000
  const ACK_WAIT: nat := 8 * 1000
  const MAX_FETCH: nat := 200
  const DAY: nat := 24 * 3600 * 1000
  const RETENTION: nat := 7 * DAY
  const EVENT_LIFE: nat := 2 * DAY

  /** What the server reads of a stored payload; `readable` tells that it parses as a JSON object. */
  datatype Payload = Payload(text: string, readable: bool, deadline: Option<Time>, from: UserId, to: UserId)

  datatype Row = Row(receiver: UserId, payload: Payload, createdAt: Time)

  datatype Lease = Lease(receiver: UserId, token: Token, expires: Time)

  datatype EventKey = EventKey(sender: UserId, receiver: UserId, event: string)

  /** `row` is the mailbox row of the event until an online acknowledgement removes it. */
  datatype Event = Event(row: Option<nat>, expires: Time)

  /** `event` is the event id of a lifecycle message. */
  datatype Delivery = Delivery(to: UserId, sender: UserId, payload: Payload, event: Option<string>, expires: Time)

  /** `nextId` is the next AUTOINCREMENT id: ids of deleted rows are not used again. */
  datatype Box = Box(
    queue: map<nat, Row>, nextId: nat, leases: map<nat, Lease>,
    events: map<EventKey, Event>, pending: map<DeliveryId, Delivery>)

  function Insert(b: Box, receiver: UserId, p: Payload, now: Time): Box {
    b.(queue := b.queue[b.nextId := Row(receiver, p, now)], nextId := b.nextId + 1)
  }

  // ---------- Lifecycle events ----------

  function DeadEvents(b: Box, now: Time): set<EventKey> {
    set k | k in b.events && b.events[k].expires < now
  }

  function DeadRows(b: Box, now: Time): set<nat> {
    set k | k in DeadEvents(b, now) && b.events[k].row.Some? :: b.events[k].row.value
  }

  function DropEvents(b: Box, now: Time): Box {
    b.(queue := b.queue - DeadRows(b, now), events := b.events - DeadEvents(b, now))
  }

  predicate Known(b: Box, key: EventKey, now: Time) {
    key in b.events && b.events[key].expires >= now
  }

  /** Stores a lifecycle envelope unless the event is already known. */
  function Persist(b: Box, key: EventKey, p: Payload, now: Time): Box {
    var b1 := DropEvents(b, now);
    if Known(b, key, now) then b1
    else Insert(b1, key.receiver, p, now).(events := b1.events[key := Event(Some(b1.nextId), now + EVENT_LIFE)])
  }

  // ---------- Routing and online delivery ----------

  /** `tracked` tells that deliveries wait for an acknowledgement; `counts`
      that the message asks for an unread entry and is not protocol control. */
  datatype Message = Message(to: UserId, sender: UserId, payload: Payload, event: Option<string>, tracked: bool, counts: bool)

  /** One local socket of the recipient: whether sending succeeded, and the delivery id drawn for it. */
  datatype Send = Send(ok: bool, id: DeliveryId)

  predicate Reached(sends: seq<Send>) {
    exists i :: 0 <= i < |sends| && sends[i].ok
  }

  function DeliveryOf(m: Message, now: Time): Delivery {
    Delivery(m.to, m.sender, m.payload, m.event, now + ACK_WAIT)
  }

  function Await(pending: map<DeliveryId, Delivery>, sends: seq<Send>, d: Delivery): map<DeliveryId, Delivery> {
    if sends == [] then pending
    else
      var last := sends[|sends| - 1];
      var before := Await(pending, sends[..|sends| - 1], d);
      if last.ok then before[last.id := d] else before
  }

  function KeyOf(m: Message): EventKey
    requires m.event.Some?
  {
    EventKey(m.sender, m.to, m.event.value)
  }

  /** Routing one message. A lifecycle message is stored first; if the notice
      of that to the sender fails, the rest of the routing is skipped. */
  function Route(b: Box, m: Message, sends: seq<Send>, noticeOk: bool, now: Time): Box {
    if m.to == "" then b
    else
      var b1 := if m.event.Some? then Persist(b, KeyOf(m), m.payload, now) else b;
      if m.event.Some? && !noticeOk then b1
      else if Reached(sends) then (if m.tracked then b1.(pending := Await(b1.pending, sends, DeliveryOf(m, now))) else b1)
      else if m.event.None? then Insert(b1, m.to, m.payload, now)
      else b1
  }

  /** Whether routing enters the message in the recipient's unread table. */
  predicate CountsUnread(b: Box, m: Message, noticeOk: bool, now: Time) {
    && m.to != "" && m.to != m.sender && m.counts
    && (m.event.Some? ==> noticeOk && !Known(b, KeyOf(m), now))
  }

  function DeliveryAck(b: Box, id: DeliveryId): Box {
    if id !in b.pending then b
    else
      var d, b1 := b.pending[id], b.(pending := b.pending - {id});
      if d.event.None? || EventKey(d.sender, d.to, d.event.value) !in b.events then b1
      else
        var key := EventKey(d.sender, d.to, d.event.value);
        var e := b.events[key];
        b1.(events := b.events[key := e.(row := None)],
            queue := if e.row.Some? && e.row.value in b.queue && b.queue[e.row.value].receiver == d.to
                     then b.queue - {e.row.value} else b.queue)
  }

  function Requeue(b: Box, d: Delivery, now: Time): Box {
    if d.to == "" || d.event.Some? then b else Insert(b, d.to, d.payload, now)
  }

  /** A delivery whose acknowledgement is overdue goes to the mailbox; a lifecycle message is there already. */
  function Overdue(b: Box, id: DeliveryId, now: Time): Box {
    if id !in b.pending || b.pending[id].expires > now then b
    else Requeue(b.(pending := b.pending - {id}), b.pending[id], now)
  }

  // ---------- Fetch and acknowledgement ----------

  predicate Leased(b: Box, u: UserId, id: nat, now: Time) {
    id in b.leases && b.leases[id].receiver == u && b.leases[id].expires > now
  }

  function Waiting(b: Box, u: UserId): set<nat> {
    set id | id in b.queue && b.queue[id].receiver == u
  }

  function Available(b: Box, u: UserId, now: Time): set<nat> {
    set id | id in Waiting(b, u) && !Leased(b, u, id, now)
  }

  function Min(a: nat, b: nat): nat {
    if a <= b then a else b
  }

  function SafeLimit(limit: int): (k: nat)
    ensures 1 <= k <= MAX_FETCH
  {
    if limit < 1 then 1 else Min(limit, MAX_FETCH)
  }

  predicate Stale(p: Payload, now: Time) {
    !p.readable || (p.deadline.Some? && p.deadline.value <= now)
  }

  /** The rows of the SELECT: unleased, in id order, up to the limit. */
  function Picked(b: Box, u: UserId, limit: int, now: Time): seq<nat> {
    var ids := Ordered(Available(b, u, now));
    ids[..Min(SafeLimit(limit), |ids|)]
  }

  predicate Taken(b: Box, u: UserId, limit: int, now: Time, id: nat) {
    id in Picked(b, u, limit, now) && id in b.queue && !Stale(b.queue[id].payload, now)
  }

  function TakenIds(b: Box, u: UserId, limit: int, now: Time): set<nat> {
    set id | id in Picked(b, u, limit, now) && Taken(b, u, limit, now, id)
  }

  function StaleIds(b: Box, u: UserId, limit: int, now: Time): set<nat> {
    set id | id in Picked(b, u, limit, now) && !Taken(b, u, limit, now, id)
  }

  function OldLeases(b: Box, now: Time): set<nat> {
    set id | id in b.leases && b.leases[id].expires <= now
  }

  function LeaseAll(ids: set<nat>, l: Lease): map<nat, Lease> {
    map id | id in ids :: l
  }

  function Fetch(b: Box, u: UserId, limit: int, token: Token, now: Time): Box {
    b.(queue := b.queue - StaleIds(b, u, limit, now),
       leases := b.leases - OldLeases(b, now) + LeaseAll(TakenIds(b, u, limit, now), Lease(u, token, now + LEASE)))
  }

  datatype AckResult = AckResult(id: int, ok: bool)

  /** The ids a request names, in either of its two lists. */
  function Requested(results: seq<AckResult>, ids: seq<int>): set<int> {
    (set r | r in results && r.id > 0 && r.ok :: r.id) + (set id | id in ids && id > 0)
  }

  function LeasedUnder(b: Box, u: UserId, token: Token, now: Time): set<nat> {
    set id | id in b.leases && b.leases[id].receiver == u && b.leases[id].token == token && b.leases[id].expires > now
  }

  function AckIds(b: Box, u: UserId, token: Token, requested: set<int>, now: Time): set<nat> {
    set id | id in LeasedUnder(b, u, token, now) && (requested == {} || id in requested)
  }

  function TokenLeases(b: Box, u: UserId, token: Token): set<nat> {
    set id | id in b.leases && b.leases[id].receiver == u && b.leases[id].token == token
  }

  function Ack(b: Box, u: UserId, token: Token, requested: set<int>, now: Time): Box {
    b.(queue := b.queue - (AckIds(b, u, token, requested, now) * Waiting(b, u)),
       leases := b.leases - TokenLeases(b, u, token))
  }

  // ---------- Older fetch, healing, cleanup, purge ----------

  function Drain(b: Box, u: UserId): Box {
    b.(queue := b.queue - Waiting(b, u))
  }

  function Heal(b: Box, now: Time): Box {
    b.(leases := b.leases - OldLeases(b, now))
  }

  function TooOld(b: Box, now: Time): set<nat> {
    set id | id in b.queue && b.queue[id].createdAt < now - RETENTION
  }

  function CleanUp(b: Box, now: Time): Box {
    DropEvents(b.(queue := b.queue - TooOld(b, now)), now)
  }

  predicate Mentions(r: Row, u: UserId) {
    r.receiver == u || (r.payload.readable && (r.payload.from == u || r.payload.to == u))
  }

  function Mentioning(b: Box, u: UserId): set<nat> {
    set id | id in b.queue && Mentions(b.queue[id], u)
  }

  function LeasesOf(b: Box, u: UserId): set<nat> {
    set id | id in b.leases && b.leases[id].receiver == u
  }

  /** Account reset and deregistration. */
  function Purge(b: Box, u: UserId): Box {
    b.(queue := b.queue - Mentioning(b, u), leases := b.leases - Mentioning(b, u) - LeasesOf(b, u))
  }

  // ---------- What one fetch returns ----------

  /** The fetch offers the lowest unleased ids: nothing it passes over is older than what it picks,
      and it picks as many as the limit and the supply allow. */
  lemma PickedLowest(b: Box, u: UserId, limit: int, now: Time)
    ensures var s := Picked(b, u, limit, now);
            && Ascending(s) && |s| == Min(SafeLimit(limit), |Available(b, u, now)|)
            && (forall id :: id in s ==> id in Available(b, u, now))
            && (forall id, x :: id in Available(b, u, now) && id !in s && x in s ==> x < id)
  {
    hide Available, SafeLimit;
    var s, all := Picked(b, u, limit, now), Ordered(Available(b, u, now));
    forall id, x | id in Available(b, u, now) && id !in s && x in s ensures x < id {
      var j :| 0 <= j < |all| && all[j] == id;
      var i :| 0 <= i < |s| && s[i] == x;
      assert forall k :: 0 <= k < |s| ==> all[k] == s[k];
    }
  }

  /** An acknowledgement removes exactly the messages leased under its token that it names, or all of them if it
      names none; on a token that has expired or been replaced it removes nothing. */
  lemma AckExact(b: Box, u: UserId, token: Token, requested: set<int>, now: Time, id: nat)
    requires id in b.queue
    ensures id !in Ack(b, u, token, requested, now).queue <==>
              && b.queue[id].receiver == u
              && id in b.leases && b.leases[id] == Lease(u, token, b.leases[id].expires) && b.leases[id].expires > now
              && (requested != {} ==> id in requested)
    ensures id in Ack(b, u, token, requested, now).queue ==> Ack(b, u, token, requested, now).queue[id] == b.queue[id]
  {
  }

  /** What a partial acknowledgement leaves under its token can be fetched again at once. */
  lemma AckReleases(b: Box, u: UserId, token: Token, requested: set<int>, now: Time, id: nat)
    requires id in b.queue && b.queue[id].receiver == u && id in LeasedUnder(b, u, token, now)
    ensures var b' := Ack(b, u, token, requested, now);
            id in b'.queue <==> id in Available(b', u, now)
  {
  }

  /** Nothing of another user changes: not a row, not a lease. */
  lemma AckSparesOthers(b: Box, u: UserId, v: UserId, token: Token, requested: set<int>, now: Time)
    requires u != v
    ensures var b' := Ack(b, u, token, requested, now);
            && Waiting(b', v) == Waiting(b, v) && LeasesOf(b', v) == LeasesOf(b, v)
            && (forall id :: id in LeasesOf(b, v) ==> b'.leases[id] == b.leases[id])
            && b'.events == b.events && b'.pending == b.pending && b'.nextId == b.nextId
  {
    var b' := Ack(b, u, token, requested, now);
    assert forall id :: id in b.queue && b.queue[id].receiver == v ==> id in b'.queue;
    assert forall id :: id in LeasesOf(b, v) ==> id in b'.leases && b'.leases[id] == b.leases[id];
  }

  // ---------- Draining ----------

  /** One round of a client: fetch at `at`, acknowledge everything `delay` later. */
  datatype Turn = Turn(token: Token, at: Time, delay: nat)

  function Round(b: Box, u: UserId, limit: int, t: Turn): Box {
    Ack(Fetch(b, u, limit, t.token, t.at), u, t.token, {}, t.at + t.delay)
  }

  function Rounds(b: Box, u: UserId, limit: int, turns: seq<Turn>): Box {
    if turns == [] then b else Round(Rounds(b, u, limit, turns[..|turns| - 1]), u, limit, turns[|turns| - 1])
  }

  predicate Unleased(b: Box, u: UserId) {
    forall id :: id in b.leases ==> b.leases[id].receiver != u
  }

  lemma FetchWaiting(b: Box, u: UserId, limit: int, token: Token, now: Time)
    ensures Waiting(Fetch(b, u, limit, token, now), u) == Waiting(b, u) - StaleIds(b, u, limit, now)
  {
    hide Picked, Taken;
  }

  lemma FetchLeases(b: Box, u: UserId, limit: int, token: Token, now: Time, later: Time)
    requires Unleased(b, u) && later < now + LEASE
    ensures var b' := Fetch(b, u, limit, token, now);
            && (forall id :: id in b'.leases && b'.leases[id].receiver == u ==> b'.leases[id].token == token)
            && LeasedUnder(b', u, token, later) == TakenIds(b, u, limit, now)
  {
    hide Picked, Taken;
    var b', taken := Fetch(b, u, limit, token, now), TakenIds(b, u, limit, now);
    forall id ensures id in LeasedUnder(b', u, token, later) <==> id in taken {
      assert id in taken ==> b'.leases[id] == Lease(u, token, now + LEASE);
      assert id in b'.leases && id !in taken ==> id in b.leases && b'.leases[id] == b.leases[id];
    }
  }

  lemma RoundTakes(b: Box, u: UserId, limit: int, t: Turn)
    requires Unleased(b, u) && t.delay < LEASE
    ensures Unleased(Round(b, u, limit, t), u)
    ensures var p := Picked(b, u, limit, t.at);
            Waiting(Round(b, u, limit, t), u) == Waiting(b, u) - Members(p)
  {
    hide Picked, Taken, Fetch, Ack, Waiting, LeasedUnder, Unleased;
    var b1, p := Fetch(b, u, limit, t.token, t.at), Picked(b, u, limit, t.at);
    FetchWaiting(b, u, limit, t.token, t.at);
    FetchLeases(b, u, limit, t.token, t.at, t.at + t.delay);
    AckAll(b1, u, t.token, t.at + t.delay);
    assert Members(p) == StaleIds(b, u, limit, t.at) + TakenIds(b, u, limit, t.at);
    assert Waiting(b, u) - StaleIds(b, u, limit, t.at) - TakenIds(b, u, limit, t.at) == Waiting(b, u) - Members(p);
  }

  lemma AckAll(b: Box, u: UserId, token: Token, now: Time)
    requires forall id :: id in b.leases && b.leases[id].receiver == u ==> b.leases[id].token == token
    ensures var b' := Ack(b, u, token, {}, now);
            Unleased(b', u) && Waiting(b', u) == Waiting(b, u) - LeasedUnder(b, u, token, now)
  {
    var b' := Ack(b, u, token, {}, now);
    forall id ensures id in Waiting(b', u) <==> id in Waiting(b, u) - LeasedUnder(b, u, token, now) {
      assert AckIds(b, u, token, {}, now) == LeasedUnder(b, u, token, now);
    }
  }

  lemma UnleasedAvailable(b: Box, u: UserId, now: Time)
    requires Unleased(b, u)
    ensures Available(b, u, now) == Waiting(b, u)
  {
  }

  lemma RoundRemoves(b: Box, u: UserId, limit: int, t: Turn)
    requires Unleased(b, u) && t.delay < LEASE
    ensures |Waiting(Round(b, u, limit, t), u)| == Less(|Waiting(b, u)|, SafeLimit(limit))
  {
    hide Picked, Round, Waiting, Ascending;
    RoundTakes(b, u, limit, t);
    PickedLowest(b, u, limit, t.at);
    var p := Picked(b, u, limit, t.at);
    UnleasedAvailable(b, u, t.at);
    AscendingSize(p);
    assert Members(p) <= Waiting(b, u);
    assert |Waiting(b, u) - Members(p)| == |Waiting(b, u)| - |Members(p)|;
  }

  lemma OneMore(m: nat, k: nat)
    ensures (m + 1) * k == m * k + k && m * k >= 0
  {
  }

  /** Every lease of u has run out by the time given. */
  predicate LapsedBy(b: Box, u: UserId, at: Time) {
    forall id :: id in b.leases && b.leases[id].receiver == u ==> b.leases[id].expires <= at
  }

  /** A fetch removes what has run out before it looks, so it sees the healed mailbox. */
  lemma FetchHeals(b: Box, u: UserId, limit: int, token: Token, now: Time)
    ensures Fetch(b, u, limit, token, now) == Fetch(Heal(b, now), u, limit, token, now)
    ensures Waiting(Heal(b, now), u) == Waiting(b, u)
    ensures LapsedBy(b, u, now) ==> Unleased(Heal(b, now), u)
  {
    HealedAvailable(b, u, now);
    var h := Heal(b, now);
    hide Available, Ordered;
    assert Picked(b, u, limit, now) == Picked(h, u, limit, now);
    hide Picked;
    assert TakenIds(b, u, limit, now) == TakenIds(h, u, limit, now) && StaleIds(b, u, limit, now) == StaleIds(h, u, limit, now);
    hide TakenIds, StaleIds;
    assert b.leases - OldLeases(b, now) - OldLeases(h, now) == b.leases - OldLeases(b, now);
  }

  lemma HealedAvailable(b: Box, u: UserId, now: Time)
    ensures Available(Heal(b, now), u, now) == Available(b, u, now) && Waiting(Heal(b, now), u) == Waiting(b, u)
  {
  }

  /** What n messages come down to after so many removals. */
  function Less(n: nat, gone: nat): nat {
    if n <= gone then 0 else n - gone
  }

  lemma LessTwice(n: nat, m: nat, k: nat)
    ensures m * k >= 0 && (m + 1) * k >= 0
    ensures Less(Less(n, m * k), k) == Less(n, (m + 1) * k)
  {
    OneMore(m, k);
  }

  lemma {:induction false} UnleasedRounds(b: Box, u: UserId, limit: int, turns: seq<Turn>)
    requires Unleased(b, u) && forall i :: 0 <= i < |turns| ==> turns[i].delay < LEASE
    ensures Unleased(Rounds(b, u, limit, turns), u)
    ensures |turns| * SafeLimit(limit) >= 0
    ensures |Waiting(Rounds(b, u, limit, turns), u)| == Less(|Waiting(b, u)|, |turns| * SafeLimit(limit))
  {
    if turns == [] {
      hide Waiting, Unleased, SafeLimit;
    } else {
      hide *;
      var before, last := turns[..|turns| - 1], turns[|turns| - 1];
      assert turns == before + [last];
      UnleasedRounds(b, u, limit, before);
      var b1 := Rounds(b, u, limit, before);
      LastRound(b, u, limit, before, last);
      RoundTakes(b1, u, limit, last);
      RoundRemoves(b1, u, limit, last);
      LessTwice(|Waiting(b, u)|, |before|, SafeLimit(limit));
      assert |turns| == |before| + 1;
    }
  }

  lemma LastRound(b: Box, u: UserId, limit: int, turns: seq<Turn>, t: Turn)
    ensures Rounds(b, u, limit, turns + [t]) == Round(Rounds(b, u, limit, turns), u, limit, t)
  {
    hide Round;
    assert (turns + [t])[..|turns|] == turns;
  }

  lemma {:induction false} RoundsJoin(b: Box, u: UserId, limit: int, first: seq<Turn>, rest: seq<Turn>)
    ensures Rounds(b, u, limit, first + rest) == Rounds(Rounds(b, u, limit, first), u, limit, rest)
  {
    if rest == [] {
      assert first + rest == first;
    } else {
      hide *;
      var before, last := rest[..|rest| - 1], rest[|rest| - 1];
      assert rest == before + [last] && first + rest == (first + before) + [last];
      RoundsJoin(b, u, limit, first, before);
      LastRound(b, u, limit, first + before, last);
      LastRound(Rounds(b, u, limit, first), u, limit, before, last);
    }
  }

  /** With no new arrivals, k rounds of fetch and full acknowledgement leave max(0, n - k * limit) of n messages,
      whatever the limit asked for, however the rounds are spaced, however many rows were stale, and
      whatever fetches went unacknowledged before, if their leases have run out when the first round begins. */
  lemma RoundsDrain(b: Box, u: UserId, limit: int, turns: seq<Turn>)
    requires turns != [] ==> LapsedBy(b, u, turns[0].at)
    requires forall i :: 0 <= i < |turns| ==> turns[i].delay < LEASE
    ensures turns != [] ==> Unleased(Rounds(b, u, limit, turns), u)
    ensures var n, gone := |Waiting(b, u)|, |turns| * SafeLimit(limit);
            |Waiting(Rounds(b, u, limit, turns), u)| == if n <= gone then 0 else n - gone
  {
    if turns != [] {
      hide Round, Waiting, Unleased, Picked, SafeLimit, LapsedBy, Heal;
      var t, h := turns[0], Heal(b, turns[0].at);
      FetchHeals(b, u, limit, t.token, t.at);
      FirstRound(b, u, limit, turns);
      FirstRound(h, u, limit, turns);
      SameRound(b, h, u, limit, t);
      UnleasedRounds(h, u, limit, turns);
    }
  }

  lemma SameRound(b: Box, h: Box, u: UserId, limit: int, t: Turn)
    requires Fetch(b, u, limit, t.token, t.at) == Fetch(h, u, limit, t.token, t.at)
    ensures Round(b, u, limit, t) == Round(h, u, limit, t)
  {
  }

  lemma FirstRound(b: Box, u: UserId, limit: int, turns: seq<Turn>)
    requires turns != []
    ensures Rounds(b, u, limit, turns) == Rounds(Round(b, u, limit, turns[0]), u, limit, turns[1..])
  {
    RoundsJoin(b, u, limit, turns[..1], turns[1..]);
    assert turns[..1] + turns[1..] == turns;
    assert turns[..1][..0] == [];
    assert Rounds(b, u, limit, turns[..1]) == Round(b, u, limit, turns[0]);
  }

  // ---------- Rounds from any mailbox ----------

  /** A round leaves no lease of u that was not there before. */
  lemma RoundLeases(b: Box, u: UserId, limit: int, t: Turn, at: Time)
    requires LapsedBy(b, u, at)
    ensures LapsedBy(Round(b, u, limit, t), u, at)
    ensures Waiting(Round(b, u, limit, t), u) <= Waiting(b, u)
  {
    hide Picked, Taken;
    var b1, b2 := Fetch(b, u, limit, t.token, t.at), Round(b, u, limit, t);
    forall id | id in b2.leases && b2.leases[id].receiver == u ensures b2.leases[id].expires <= at {
      assert id in b1.leases && b1.leases[id].token != t.token;
      assert id !in TakenIds(b, u, limit, t.at) && id in b.leases && b.leases[id] == b1.leases[id];
    }
  }

  lemma {:induction false} RoundsLeases(b: Box, u: UserId, limit: int, turns: seq<Turn>, at: Time)
    requires LapsedBy(b, u, at)
    ensures LapsedBy(Rounds(b, u, limit, turns), u, at)
    ensures Waiting(Rounds(b, u, limit, turns), u) <= Waiting(b, u)
  {
    if turns != [] {
      hide Round, Waiting, LapsedBy;
      RoundsLeases(b, u, limit, turns[..|turns| - 1], at);
      RoundLeases(Rounds(b, u, limit, turns[..|turns| - 1]), u, limit, turns[|turns| - 1], at);
    }
  }

  /** From any mailbox at all: once the leases that stood at the beginning have run out, at turn m, every further round
      takes a full limit, and as many rounds as there were messages empty the queue. */
  lemma RoundsDrainAll(b: Box, u: UserId, limit: int, turns: seq<Turn>, m: nat)
    requires m < |turns| && LapsedBy(b, u, turns[m].at)
    requires forall i :: 0 <= i < |turns| ==> turns[i].delay < LEASE
    ensures var n, gone := |Waiting(b, u)|, (|turns| - m) * SafeLimit(limit);
            |Waiting(Rounds(b, u, limit, turns), u)| <= if n <= gone then 0 else n - gone
    ensures |turns| - m >= |Waiting(b, u)| ==> Waiting(Rounds(b, u, limit, turns), u) == {}
  {
    hide *;
    var first, rest := turns[..m], turns[m..];
    assert turns == first + rest && rest[0] == turns[m] && |rest| == |turns| - m;
    var b1 := Rounds(b, u, limit, first);
    RoundsJoin(b, u, limit, first, rest);
    RoundsLeases(b, u, limit, first, turns[m].at);
    RoundsDrain(b1, u, limit, rest);
    SmallerSet(Waiting(b1, u), Waiting(b, u));
    AtLeast(|rest|, SafeLimit(limit));
    EmptySet(Waiting(Rounds(b, u, limit, turns), u));
  }

  lemma SmallerSet(a: set<nat>, b: set<nat>)
    requires a <= b
    ensures |a| <= |b|
  {
    assert |b - a| == |b| - |a|;
  }

  lemma EmptySet(a: set<nat>)
    ensures |a| == 0 <==> a == {}
  {
  }

  lemma AtLeast(m: nat, k: nat)
    requires k >= 1
    ensures m * k >= m
  {
  }
}
