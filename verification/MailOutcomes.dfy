/** What a user can rely on, transaction by transaction: which messages are
    stored, awaited, handed out and removed, in terms of the tables before. */
module MailOutcomes {
  import opened Wrappers
  import opened Sorting
  import opened Mailbox

  /** New ids are beyond those of the queue. */
  predicate Numbered(b: Box) {
    forall id :: id in b.queue ==> id < b.nextId
  }

  // ---------- Routing ----------

  /** The event is known: its record has not run out. */
  predicate Remembers(b: Box, sender: UserId, receiver: UserId, event: string, now: Time) {
    EventKey(sender, receiver, event) in b.events && now <= b.events[EventKey(sender, receiver, event)].expires
  }

  predicate SentAs(sends: seq<Send>, d: DeliveryId) {
    exists i :: 0 <= i < |sends| && sends[i].ok && sends[i].id == d
  }

  /** Every delivery that went out waits eight seconds for its acknowledgement, if it is tracked; no other one changes. */
  ghost predicate AwaitsSent(b: Box, b': Box, m: Message, sends: seq<Send>, now: Time) {
    forall d ::
      if m.tracked && SentAs(sends, d) then
        d in b'.pending && b'.pending[d] == Delivery(m.to, m.sender, m.payload, m.event, now + 8000)
      else (d in b'.pending <==> d in b.pending) && (d in b.pending ==> b'.pending[d] == b.pending[d])
  }

  lemma {:induction false} AwaitSends(pending: map<DeliveryId, Delivery>, sends: seq<Send>, x: Delivery)
    ensures forall d ::
              var after := Await(pending, sends, x);
              if SentAs(sends, d) then d in after && after[d] == x
              else (d in after <==> d in pending) && (d in pending ==> after[d] == pending[d])
  {
    if sends != [] {
      var before, last := sends[..|sends| - 1], sends[|sends| - 1];
      AwaitSends(pending, before, x);
      forall d ensures SentAs(sends, d) <==> SentAs(before, d) || (last.ok && last.id == d) {
        assert forall i :: 0 <= i < |before| ==> before[i] == sends[i];
      }
      hide SentAs;
    }
  }

  lemma Reaches(sends: seq<Send>)
    ensures Reached(sends) <==> exists d :: SentAs(sends, d)
  {
    if Reached(sends) {
      var i :| 0 <= i < |sends| && sends[i].ok;
      assert SentAs(sends, sends[i].id);
    }
  }

  /** A plain message reaches a socket and leaves no row, or reaches nobody and becomes the one new row of its recipient. */
  lemma RouteOutcome(b: Box, m: Message, sends: seq<Send>, noticeOk: bool, now: Time)
    requires m.event == None
    ensures var b' := Route(b, m, sends, noticeOk, now);
            && b'.leases == b.leases && b'.events == b.events
            && if m.to != "" && (exists d :: SentAs(sends, d)) then
                 b'.queue == b.queue && b'.nextId == b.nextId && AwaitsSent(b, b', m, sends, now)
               else if m.to != "" then
                 b'.pending == b.pending && b'.nextId == b.nextId + 1 && b'.queue == b.queue[b.nextId := Row(m.to, m.payload, now)]
               else b' == b
  {
    Reaches(sends);
    AwaitSends(b.pending, sends, Delivery(m.to, m.sender, m.payload, m.event, now + 8000));
    hide SentAs, Reached;
  }

  /** The row of an event whose record has run out. */
  ghost predicate RunOut(b: Box, now: Time, id: nat) {
    exists k :: k in b.events && b.events[k].expires < now && b.events[k].row == Some(id)
  }

  /** What storing a lifecycle message does to the rows and the records. */
  ghost predicate Stores(b: Box, b': Box, m: Message, now: Time)
    requires m.event.Some?
  {
    var key := EventKey(m.sender, m.to, m.event.value);
    && (forall id :: id in b.queue && !RunOut(b, now, id) ==> id in b'.queue && b'.queue[id] == b.queue[id])
    && (forall k :: k != key ==> (k in b'.events <==> k in b.events && now <= b.events[k].expires))
    && (forall k :: k != key && k in b'.events ==> b'.events[k] == b.events[k])
    && if Remembers(b, m.sender, m.to, m.event.value, now) then
         && b'.nextId == b.nextId && key in b'.events && b'.events[key] == b.events[key]
         && (forall id :: id in b'.queue ==> id in b.queue && !RunOut(b, now, id))
       else
         && b'.nextId == b.nextId + 1 && b.nextId in b'.queue && b'.queue[b.nextId] == Row(m.to, m.payload, now)
         && key in b'.events && b'.events[key] == Event(Some(b.nextId), now + 172800000)
         && (forall id :: id in b'.queue && id != b.nextId ==> id in b.queue && !RunOut(b, now, id))
  }

  lemma DeadIsRunOut(b: Box, now: Time)
    ensures forall id :: id in DeadRows(b, now) <==> RunOut(b, now, id)
  {
    forall id ensures id in DeadRows(b, now) <==> RunOut(b, now, id) {
      if RunOut(b, now, id) {
        var k :| k in b.events && b.events[k].expires < now && b.events[k].row == Some(id);
        assert k in DeadEvents(b, now);
      }
    }
  }

  lemma PersistStores(b: Box, m: Message, now: Time)
    requires m.event.Some? && Numbered(b)
    ensures var b' := Persist(b, KeyOf(m), m.payload, now);
            Stores(b, b', m, now) && b'.leases == b.leases && b'.pending == b.pending
  {
    DeadIsRunOut(b, now);
    hide DeadRows, RunOut;
  }

  /** A lifecycle message is stored once while its event is remembered, two days; it goes out only after its sender was told. */
  lemma LifecycleOutcome(b: Box, m: Message, sends: seq<Send>, noticeOk: bool, now: Time)
    requires m.event.Some? && m.to != "" && Numbered(b)
    ensures var b' := Route(b, m, sends, noticeOk, now);
            && Stores(b, b', m, now) && b'.leases == b.leases
            && if noticeOk then AwaitsSent(b, b', m, sends, now) else b'.pending == b.pending
  {
    PersistStores(b, m, now);
    var b1 := Persist(b, KeyOf(m), m.payload, now);
    Reaches(sends);
    AwaitSends(b1.pending, sends, Delivery(m.to, m.sender, m.payload, m.event, now + 8000));
    var b' := Route(b, m, sends, noticeOk, now);
    hide SentAs, Reached, Persist;
    assert b' == b1.(pending := b'.pending);
    SameStores(b, b1, b', m, now);
    hide Stores;
  }

  lemma SameStores(b: Box, b1: Box, b': Box, m: Message, now: Time)
    requires m.event.Some? && Stores(b, b1, m, now) && b' == b1.(pending := b'.pending)
    ensures Stores(b, b', m, now)
  {
    hide RunOut, Remembers;
  }

  /** A message to somebody else that asks for it is counted unread: a plain one in every copy, whatever the state; a
      lifecycle one when it is stored, if its sender could be told. */
  lemma UnreadOutcome(b: Box, m: Message, noticeOk: bool, now: Time)
    ensures CountsUnread(b, m, noticeOk, now) <==>
              && m.counts && m.to !in {"", m.sender}
              && (m.event == None || (noticeOk && !Remembers(b, m.sender, m.to, m.event.value, now)))
  {
  }

  // ---------- Acknowledged and overdue deliveries ----------

  /** An acknowledged delivery stops waiting; if it was of a remembered event, the stored copy goes too, and for good. */
  lemma DeliveryAckOutcome(b: Box, id: DeliveryId)
    ensures var b' := DeliveryAck(b, id);
            && b'.pending == b.pending - {id} && b'.leases == b.leases && b'.nextId == b.nextId
            && if id in b.pending && b.pending[id].event.Some?
                  && EventKey(b.pending[id].sender, b.pending[id].to, b.pending[id].event.value) in b.events then
                 var key := EventKey(b.pending[id].sender, b.pending[id].to, b.pending[id].event.value);
                 && b'.events == b.events[key := Event(None, b.events[key].expires)]
                 && (forall x :: x in b'.queue <==>
                       x in b.queue && !(b.events[key].row == Some(x) && b.queue[x].receiver == b.pending[id].to))
                 && (forall x :: x in b'.queue ==> b'.queue[x] == b.queue[x])
               else b'.events == b.events && b'.queue == b.queue
  {
    assert id !in b.pending ==> b.pending - {id} == b.pending;
  }

  /** An overdue delivery that needs a row in the mailbox. */
  predicate NeedsRow(b: Box, d: DeliveryId, now: Time) {
    d in b.pending && b.pending[d].expires <= now && b.pending[d].to != "" && b.pending[d].event == None
  }

  /** Row number k of the new ones is that of the delivery order[k]. */
  predicate NewRows(b: Box, b': Box, order: seq<DeliveryId>, now: Time)
    requires forall d :: d in order ==> d in b.pending
  {
    && b'.nextId == b.nextId + |order|
    && (forall id :: id in b'.queue ==> id in b.queue || b.nextId <= id < b.nextId + |order|)
    && (forall k :: 0 <= k < |order| ==> HoldsAt(b'.queue, b.nextId + k, b.pending[order[k]], now))
  }

  predicate HoldsAt(queue: map<nat, Row>, id: nat, d: Delivery, now: Time) {
    id in queue && queue[id] == Row(d.to, d.payload, now)
  }

  predicate Distinct(ids: seq<DeliveryId>) {
    forall i, j :: 0 <= i < j < |ids| ==> ids[i] != ids[j]
  }

  /** After a pass nothing overdue waits any more, everything else still does, and every overdue plain delivery
      has exactly one new row, with its recipient and payload. */
  ghost predicate Passed(b: Box, b': Box, now: Time) {
    && b'.leases == b.leases && b'.events == b.events
    && (forall d :: d in b'.pending <==> d in b.pending && now < b.pending[d].expires)
    && (forall d :: d in b'.pending ==> b'.pending[d] == b.pending[d])
    && (forall id :: id in b.queue ==> id in b'.queue && b'.queue[id] == b.queue[id])
    && exists order: seq<DeliveryId> ::
         Distinct(order) && (forall d :: d in order <==> NeedsRow(b, d, now)) && NewRows(b, b', order, now)
  }

  // ---------- Fetch and acknowledgement ----------

  /** A message of u that no live lease of u covers. */
  predicate Free(b: Box, u: UserId, id: nat, now: Time) {
    && id in b.queue && b.queue[id].receiver == u
    && !(id in b.leases && b.leases[id].receiver == u && now < b.leases[id].expires)
  }

  function OlderFree(b: Box, u: UserId, id: nat, now: Time): set<nat> {
    set x | x in b.queue && x < id && Free(b, u, x, now)
  }

  /** The limit asked for, between 1 and 200. */
  function Asked(limit: int): nat {
    if limit < 1 then 1 else if limit > 200 then 200 else limit
  }

  /** The message is free, and fewer than the limit are older. */
  predicate Offered(b: Box, u: UserId, limit: int, id: nat, now: Time) {
    Free(b, u, id, now) && |OlderFree(b, u, id, now)| < Asked(limit)
  }

  /** It can be read and its deadline, if it has one, has not passed. */
  predicate Useful(p: Payload, now: Time) {
    p.readable && (p.deadline.Some? ==> now < p.deadline.value)
  }

  lemma OlderInPicked(b: Box, u: UserId, limit: int, now: Time, id: nat)
    requires id in Picked(b, u, limit, now)
    ensures |OlderFree(b, u, id, now)| < |Picked(b, u, limit, now)|
  {
    PickedLowest(b, u, limit, now);
    var s := Picked(b, u, limit, now);
    AscendingSize(s);
    assert OlderFree(b, u, id, now) <= Members(s) - {id} by {
      forall x | x in OlderFree(b, u, id, now) ensures x in s {
        assert x in Available(b, u, now);
      }
    }
    SmallerSet(OlderFree(b, u, id, now), Members(s) - {id});
    assert |Members(s) - {id}| == |Members(s)| - 1;
  }

  lemma NotPickedIsLater(b: Box, u: UserId, limit: int, now: Time, id: nat)
    requires id in Available(b, u, now) && id !in Picked(b, u, limit, now)
    ensures |OlderFree(b, u, id, now)| >= Asked(limit)
  {
    PickedLowest(b, u, limit, now);
    var s := Picked(b, u, limit, now);
    hide Picked, Ordered;
    AscendingSize(s);
    assert Members(s) <= OlderFree(b, u, id, now);
    assert Members(s) <= Available(b, u, now) - {id};
    assert |Available(b, u, now) - {id}| == |Available(b, u, now)| - 1;
    hide Members, OlderFree, Available;
    SmallerSet(Members(s), OlderFree(b, u, id, now));
    SmallerSet(Members(s), Available(b, u, now) - {id});
  }

  /** What is picked is what is offered. */
  lemma PickedIsOffered(b: Box, u: UserId, limit: int, now: Time, id: nat)
    ensures id in Picked(b, u, limit, now) <==> Offered(b, u, limit, id, now)
  {
    PickedLowest(b, u, limit, now);
    assert id in Available(b, u, now) <==> Free(b, u, id, now);
    if id in Picked(b, u, limit, now) {
      OlderInPicked(b, u, limit, now, id);
    } else if id in Available(b, u, now) {
      NotPickedIsLater(b, u, limit, now, id);
    }
  }

  /** A fetch leases for twenty seconds every offered message that is still of use, removes every other one offered, and
      drops the leases that ran out; no other row and no other lease changes. */
  lemma FetchOutcome(b: Box, u: UserId, limit: int, token: Token, now: Time, id: nat)
    ensures var b' := Fetch(b, u, limit, token, now);
            && b'.events == b.events && b'.pending == b.pending && b'.nextId == b.nextId
            && (id in b'.queue <==> id in b.queue && (Offered(b, u, limit, id, now) ==> Useful(b.queue[id].payload, now)))
            && (id in b'.queue ==> b'.queue[id] == b.queue[id])
            && if Offered(b, u, limit, id, now) && Useful(b.queue[id].payload, now) then
                 id in b'.leases && b'.leases[id] == Lease(u, token, now + 20000)
               else
                 (id in b'.leases <==> id in b.leases && now < b.leases[id].expires) && (id in b'.leases ==> b'.leases[id] == b.leases[id])
  {
    PickedIsOffered(b, u, limit, now, id);
    hide Picked, OlderFree;
  }

  /** The request names the message, as handled, in one of its two lists. */
  predicate Names(results: seq<AckResult>, ids: seq<int>, id: nat) {
    id > 0 && (AckResult(id, true) in results || id in ids)
  }

  /** The request names nothing at all. */
  predicate NamesNothing(results: seq<AckResult>, ids: seq<int>) {
    (forall r :: r in results && r.ok ==> r.id <= 0) && forall id :: id in ids ==> id <= 0
  }

  /** The message is the user's, under a live lease of this token, and the request names it as handled or names nothing. */
  predicate Acked(b: Box, u: UserId, token: Token, results: seq<AckResult>, ids: seq<int>, now: Time, id: nat) {
    && id in b.queue && b.queue[id].receiver == u
    && id in b.leases && b.leases[id].receiver == u && b.leases[id].token == token && now < b.leases[id].expires
    && (Names(results, ids, id) || NamesNothing(results, ids))
  }

  lemma NamedIsRequested(results: seq<AckResult>, ids: seq<int>, id: nat)
    ensures id in Requested(results, ids) <==> Names(results, ids, id)
    ensures Requested(results, ids) == {} <==> NamesNothing(results, ids)
  {
    if Requested(results, ids) != {} {
      var x :| x in Requested(results, ids);
      assert !NamesNothing(results, ids);
    } else {
      forall r | r in results && r.ok ensures r.id <= 0 {
        assert r.id > 0 ==> r.id in Requested(results, ids);
      }
      forall x | x in ids ensures x <= 0 {
        assert x > 0 ==> x in Requested(results, ids);
      }
    }
  }

  /** An acknowledgement takes exactly the messages it may take, and every lease of the token; nothing else changes. */
  lemma AckOutcome(b: Box, u: UserId, token: Token, results: seq<AckResult>, ids: seq<int>, now: Time, id: nat)
    ensures var b' := Ack(b, u, token, Requested(results, ids), now);
            && b'.events == b.events && b'.pending == b.pending && b'.nextId == b.nextId
            && (id in b'.queue <==> id in b.queue && !Acked(b, u, token, results, ids, now, id))
            && (id in b'.queue ==> b'.queue[id] == b.queue[id])
            && (id in b'.leases <==> id in b.leases && !(b.leases[id].receiver == u && b.leases[id].token == token))
            && (id in b'.leases ==> b'.leases[id] == b.leases[id])
  {
    NamedIsRequested(results, ids, id);
    hide Requested;
  }

  // ---------- Older fetch and upkeep ----------

  /** The older fetch takes every message of the user, leased or not, and nothing else. */
  lemma DrainOutcome(b: Box, u: UserId)
    ensures var b' := Drain(b, u);
            && b' == b.(queue := b'.queue)
            && (forall id :: id in b'.queue <==> id in b.queue && b.queue[id].receiver != u)
            && (forall id :: id in b'.queue ==> b'.queue[id] == b.queue[id])
  {
  }

  /** The upkeep takes exactly the rows older than seven days, the records of events older than two, and the rows of these. */
  lemma CleanUpOutcome(b: Box, now: Time)
    ensures var b' := CleanUp(b, now);
            && b'.leases == b.leases && b'.pending == b.pending && b'.nextId == b.nextId
            && (forall id :: id in b'.queue <==> id in b.queue && now - 604800000 <= b.queue[id].createdAt && !RunOut(b, now, id))
            && (forall id :: id in b'.queue ==> b'.queue[id] == b.queue[id])
            && (forall k :: k in b'.events <==> k in b.events && now <= b.events[k].expires)
            && (forall k :: k in b'.events ==> b'.events[k] == b.events[k])
  {
    var b1 := b.(queue := b.queue - TooOld(b, now));
    DeadIsRunOut(b1, now);
    assert forall id :: RunOut(b1, now, id) <==> RunOut(b, now, id);
    hide DeadRows, RunOut;
  }

  /** A purge takes exactly the messages to the user and the readable ones that name the user, and the user's leases. */
  lemma PurgeOutcome(b: Box, u: UserId)
    ensures var b' := Purge(b, u);
            && b'.events == b.events && b'.pending == b.pending && b'.nextId == b.nextId
            && (forall id :: id in b'.queue <==>
                  id in b.queue && b.queue[id].receiver != u
                  && (b.queue[id].payload.readable ==> u !in {b.queue[id].payload.from, b.queue[id].payload.to}))
            && (forall id :: id in b'.queue ==> b'.queue[id] == b.queue[id])
            && (forall id :: id in b'.leases <==>
                  id in b.leases && b.leases[id].receiver != u && (id in b.queue ==> id in b'.queue))
            && (forall id :: id in b'.leases ==> b'.leases[id] == b.leases[id])
  {
  }

  /** Healing drops exactly the leases that have run out. */
  lemma HealOutcome(b: Box, now: Time)
    ensures var b' := Heal(b, now);
            && b' == b.(leases := b'.leases)
            && (forall id :: id in b'.leases <==> id in b.leases && now < b.leases[id].expires)
            && (forall id :: id in b'.leases ==> b'.leases[id] == b.leases[id])
  {
  }
}
