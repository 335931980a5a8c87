/** The mailbox handlers, statement by statement, each proved to make exactly
    the transition of its function in Mailbox. */
module MailStore {
  import opened Wrappers
  import opened Sorting
  import opened Mailbox
  import opened MailOutcomes

  /** The payloads of these rows, in order. */
  function Payloads(queue: map<nat, Row>, ids: seq<nat>): seq<Payload>
    requires forall id :: id in ids ==> id in queue
  {
    seq(|ids|, k requires 0 <= k < |ids| => queue[ids[k]].payload)
  }

  lemma PayloadsSnoc(queue: map<nat, Row>, ids: seq<nat>, id: nat)
    requires id in queue && forall x :: x in ids ==> x in queue
    ensures (forall x :: x in ids + [id] ==> x in queue) && Payloads(queue, ids + [id]) == Payloads(queue, ids) + [queue[id].payload]
  {
  }

  lemma OneRowMore(rows: seq<nat>, k: nat)
    requires Ascending(rows) && k < |rows|
    ensures forall id :: id in rows[..k + 1] <==> id in rows[..k] || id == rows[k]
    ensures k > 0 ==> rows[k - 1] < rows[k]
  {
    assert rows[..k + 1] == rows[..k] + [rows[k]];
  }

  lemma AscendingSnoc(s: seq<nat>, x: nat)
    requires Ascending(s) && (s != [] ==> s[|s| - 1] < x)
    ensures Ascending(s + [x])
  {
  }

  /** One pass of the timeout worker over the deliveries it collected. */
  function TimeOuts(b: Box, ids: seq<DeliveryId>, now: Time): Box {
    if ids == [] then b else Overdue(TimeOuts(b, ids[..|ids| - 1], now), ids[|ids| - 1], now)
  }

  function DueIds(b: Box, now: Time): set<DeliveryId> {
    set d | d in b.pending && b.pending[d].expires <= now
  }

  /** Popping all of them first and inserting afterwards comes to the same. */
  lemma {:induction false} TimeOutsPending(b: Box, ids: seq<DeliveryId>, now: Time)
    requires forall d :: d in ids ==> d in DueIds(b, now)
    requires forall i, j :: 0 <= i < j < |ids| ==> ids[i] != ids[j]
    ensures TimeOuts(b, ids, now).pending == b.pending - (set d | d in ids)
  {
    if ids != [] {
      var rest, last := ids[..|ids| - 1], ids[|ids| - 1];
      TimeOutsPending(b, rest, now);
      assert last !in rest;
      assert (set d | d in ids) == (set d | d in rest) + {last} by {
        assert ids == rest + [last];
      }
      assert TimeOuts(b, ids, now).pending == TimeOuts(b, rest, now).pending - {last};
    }
  }

  /** What the pass has queued so far, in order. */
  function NeedingRow(b: Box, ids: seq<DeliveryId>, now: Time): seq<DeliveryId> {
    if ids == [] then []
    else
      var last := ids[|ids| - 1];
      NeedingRow(b, ids[..|ids| - 1], now) + if NeedsRow(b, last, now) then [last] else []
  }

  lemma {:induction false} NeedingRowIs(b: Box, ids: seq<DeliveryId>, now: Time)
    requires Distinct(ids)
    ensures Distinct(NeedingRow(b, ids, now))
    ensures forall d :: d in NeedingRow(b, ids, now) <==> d in ids && NeedsRow(b, d, now)
  {
    if ids != [] {
      var before, last := ids[..|ids| - 1], ids[|ids| - 1];
      assert ids == before + [last];
      hide NeedsRow;
      NeedingRowIs(b, before, now);
      assert last !in before;
    }
  }

  lemma NewRowsSnoc(b: Box, b1: Box, b': Box, order: seq<DeliveryId>, d: DeliveryId, now: Time)
    requires (forall x :: x in order ==> x in b.pending) && NewRows(b, b1, order, now) && Numbered(b1) && d in b.pending
    requires b'.nextId == b1.nextId + 1 && b'.queue == b1.queue[b1.nextId := Row(b.pending[d].to, b.pending[d].payload, now)]
    ensures (forall x :: x in order + [d] ==> x in b.pending) && NewRows(b, b', order + [d], now)
  {
    var all := order + [d];
    forall k | 0 <= k < |all|
      ensures HoldsAt(b'.queue, b.nextId + k, b.pending[all[k]], now)
    {
      if k < |order| {
        assert all[k] == order[k] && HoldsAt(b1.queue, b.nextId + k, b.pending[order[k]], now);
      }
    }
  }

  lemma OverdueRow(b: Box, b1: Box, order: seq<DeliveryId>, d: DeliveryId, now: Time)
    requires (forall x :: x in order ==> x in b.pending) && NewRows(b, b1, order, now) && Numbered(b1)
    requires d in b.pending && d in b1.pending && b1.pending[d] == b.pending[d] && b.pending[d].expires <= now
    ensures var b', order' := Overdue(b1, d, now), order + if NeedsRow(b, d, now) then [d] else [];
            && (forall x :: x in order' ==> x in b.pending) && NewRows(b, b', order', now)
            && b'.leases == b1.leases && b'.events == b1.events && Numbered(b')
            && (forall id :: id in b1.queue ==> id in b'.queue && b'.queue[id] == b1.queue[id])
  {
    if NeedsRow(b, d, now) {
      var b' := Overdue(b1, d, now);
      assert b'.queue == b1.queue[b1.nextId := Row(b.pending[d].to, b.pending[d].payload, now)] && b'.nextId == b1.nextId + 1;
      NewRowsSnoc(b, b1, b', order, d, now);
    } else {
      assert order + [] == order;
      assert Overdue(b1, d, now).queue == b1.queue;
    }
  }

  lemma {:induction false} TimeOutsRows(b: Box, ids: seq<DeliveryId>, now: Time)
    requires Distinct(ids) && Numbered(b) && forall d :: d in ids ==> d in b.pending && b.pending[d].expires <= now
    ensures var b', order := TimeOuts(b, ids, now), NeedingRow(b, ids, now);
            && (forall d :: d in order ==> d in b.pending) && NewRows(b, b', order, now)
            && b'.leases == b.leases && b'.events == b.events && Numbered(b')
            && (forall id :: id in b.queue ==> id in b'.queue && b'.queue[id] == b.queue[id])
  {
    if ids != [] {
      var before, last := ids[..|ids| - 1], ids[|ids| - 1];
      assert ids == before + [last] && last in ids;
      TimeOutsRows(b, before, now);
      TimeOutsPending(b, before, now);
      assert last !in before;
      hide NewRows, NeedsRow, Overdue;
      OverdueRow(b, TimeOuts(b, before, now), NeedingRow(b, before, now), last, now);
    }
  }

  /** Timing out every overdue delivery leaves none overdue and gives each plain one its row. */
  lemma PassIs(b: Box, ids: seq<DeliveryId>, now: Time)
    requires Distinct(ids) && Numbered(b) && forall d :: d in ids <==> d in b.pending && b.pending[d].expires <= now
    ensures Passed(b, TimeOuts(b, ids, now), now) && Numbered(TimeOuts(b, ids, now))
  {
    TimeOutsRows(b, ids, now);
    TimeOutsPending(b, ids, now);
    NeedingRowIs(b, ids, now);
    hide TimeOuts, NeedingRow, NewRows, Distinct, Numbered;
    var order := NeedingRow(b, ids, now);
    assert forall d :: d in order <==> NeedsRow(b, d, now);
  }

  lemma TimeOutsSnoc(b: Box, ids: seq<DeliveryId>, k: nat, now: Time)
    requires forall d :: d in ids ==> d in DueIds(b, now)
    requires k < |ids| && ids[k] in b.pending
    requires forall i, j :: 0 <= i < j < |ids| ==> ids[i] != ids[j]
    ensures TimeOuts(b, ids[..k + 1], now).(pending := map[])
         == Requeue(TimeOuts(b, ids[..k], now).(pending := map[]), b.pending[ids[k]], now)
  {
    var before := ids[..k];
    assert ids[..k + 1][..k] == before;
    assert forall d :: d in before ==> d in ids;
    TimeOutsPending(b, before, now);
    assert ids[k] !in before && ids[k] in ids;
    assert ids[k] in TimeOuts(b, before, now).pending;
  }

  /** Dropping the acknowledged leases before those of the token makes no difference. */
  lemma AckLeases(b: Box, u: UserId, token: Token, requested: set<int>, now: Time)
    ensures var acked := set id | id in b.leases && b.leases[id].receiver == u && id in AckIds(b, u, token, requested, now);
            var rest := b.(leases := b.leases - acked);
            rest.leases - TokenLeases(rest, u, token) == b.leases - TokenLeases(b, u, token)
  {
  }

  lemma WaitingQueued(b: Box, u: UserId)
    ensures Waiting(b, u) <= b.queue.Keys
  {
  }

  lemma TokenLeasesOnly(b: Box, b': Box, u: UserId, token: Token)
    requires b.leases == b'.leases
    ensures TokenLeases(b, u, token) == TokenLeases(b', u, token)
  {
  }

  lemma KeysLess(queue: map<nat, Row>, gone: set<nat>)
    requires gone <= queue.Keys
    ensures |queue - gone| == |queue| - |gone|
  {
    assert (queue - gone).Keys == queue.Keys - gone;
  }

  class Store {
    var queue: map<nat, Row>
    var nextId: nat
    var leases: map<nat, Lease>
    var events: map<EventKey, Event>
    var pending: map<DeliveryId, Delivery>

    constructor ()
      ensures Contents() == Box(map[], 1, map[], map[], map[])
    {
      queue, nextId, leases, events, pending := map[], 1, map[], map[], map[];
    }

    function Contents(): Box
      reads this
    {
      Box(queue, nextId, leases, events, pending)
    }

    method InsertRow(receiver: UserId, p: Payload, now: Time) returns (id: nat)
      modifies this
      ensures Contents() == Insert(old(Contents()), receiver, p, now) && id == old(nextId)
    {
      id := nextId;
      queue := queue[id := Row(receiver, p, now)];
      nextId := nextId + 1;
    }

    /** Selects the rows of the events that are over, deletes them one by one, then the events. */
    method DropDeadEvents(now: Time)
      modifies this
      ensures Contents() == DropEvents(old(Contents()), now)
    {
      ghost var b := Contents();
      var ids := DeadRows(Contents(), now);
      var todo := ids;
      while todo != {}
        invariant todo <= ids
        invariant Contents() == b.(queue := b.queue - (ids - todo))
        decreases todo
      {
        var id: nat :| id in todo;
        assert b.queue - (ids - todo) - {id} == b.queue - (ids - (todo - {id}));
        queue := queue - {id};
        todo := todo - {id};
      }
      events := events - DeadEvents(Contents(), now);
    }

    method PersistLifecycle(key: EventKey, p: Payload, now: Time) returns (inserted: bool)
      modifies this
      ensures Contents() == Persist(old(Contents()), key, p, now)
      ensures inserted <==> !Known(old(Contents()), key, now)
    {
      DropDeadEvents(now);
      if key in events {
        return false;
      }
      var id := InsertRow(key.receiver, p, now);
      events := events[key := Event(Some(id), now + EVENT_LIFE)];
      inserted := true;
    }

    /** `unread` tells that the message enters the unread table on the way. */
    method RouteMessage(m: Message, sends: seq<Send>, noticeOk: bool, now: Time) returns (unread: bool)
      modifies this
      ensures Contents() == Route(old(Contents()), m, sends, noticeOk, now)
      ensures unread <==> CountsUnread(old(Contents()), m, noticeOk, now)
    {
      unread := false;
      if m.to == "" {
        return;
      }
      var inserted := false;
      if m.event.Some? {
        inserted := PersistLifecycle(KeyOf(m), m.payload, now);
        if !noticeOk {
          return;
        }
      }
      unread := m.to != m.sender && m.counts && (m.event.None? || inserted);
      var delivered := SendAll(m, sends, now);
      if !delivered && m.event.None? {
        var id := InsertRow(m.to, m.payload, now);
      }
    }

    method SendAll(m: Message, sends: seq<Send>, now: Time) returns (delivered: bool)
      modifies this`pending
      ensures delivered <==> Reached(sends)
      ensures pending == if delivered && m.tracked then Await(old(pending), sends, DeliveryOf(m, now)) else old(pending)
    {
      delivered := false;
      for i := 0 to |sends|
        invariant delivered <==> Reached(sends[..i])
        invariant pending == if m.tracked then Await(old(pending), sends[..i], DeliveryOf(m, now)) else old(pending)
      {
        assert sends[..i + 1][..i] == sends[..i];
        assert sends[..i + 1] == sends[..i] + [sends[i]];
        if sends[i].ok {
          assert sends[..i + 1][i].ok;
          delivered := true;
          if m.tracked {
            pending := pending[sends[i].id := Delivery(m.to, m.sender, m.payload, m.event, now + ACK_WAIT)];
          }
        }
      }
      assert sends[..|sends|] == sends;
      if !delivered {
        NoneAwaited(old(pending), sends, DeliveryOf(m, now));
      }
    }

    method ConsumeDeliveryAck(id: DeliveryId) returns (known: bool)
      modifies this
      ensures Contents() == DeliveryAck(old(Contents()), id)
      ensures known <==> id in old(pending)
      ensures id !in pending && nextId == old(nextId) && queue.Keys <= old(queue).Keys
    {
      if id !in pending {
        return false;
      }
      var d := pending[id];
      pending := pending - {id};
      if d.event.Some? {
        var key := EventKey(d.sender, d.to, d.event.value);
        if key in events {
          var row := events[key].row;
          if row.Some? && row.value in queue && queue[row.value].receiver == d.to {
            queue := queue - {row.value};
          }
          events := events[key := events[key].(row := None)];
        }
      }
      known := true;
    }

    /** One pass of the worker: pops every overdue delivery, then queues the ones that are not lifecycle messages. */
    method TimeoutPass(now: Time) returns (expired: seq<DeliveryId>)
      modifies this
      ensures Contents() == TimeOuts(old(Contents()), expired, now)
      ensures Distinct(expired) && forall d :: d in expired <==> d in old(pending) && old(pending)[d].expires <= now
      ensures old(Numbered(Contents())) ==> Numbered(Contents()) && Passed(old(Contents()), Contents(), now)
    {
      ghost var b := Contents();
      var due := DueIds(Contents(), now);
      var all := pending;
      expired := [];
      var todo := due;
      while todo != {}
        invariant todo <= due
        invariant forall d :: d in expired <==> d in due - todo
        invariant forall i, j :: 0 <= i < j < |expired| ==> expired[i] != expired[j]
        invariant Contents() == b.(pending := b.pending - (due - todo))
        decreases todo
      {
        var d :| d in todo;
        assert b.pending - (due - todo) - {d} == b.pending - (due - (todo - {d}));
        expired := expired + [d];
        pending := pending - {d};
        todo := todo - {d};
      }
      QueueAll(b, all, expired, now);
      TimeOutsPending(b, expired, now);
      assert (set d | d in expired) == due;
      if Numbered(b) {
        PassIs(b, expired, now);
      }
    }

    /** The second half of the pass. */
    method QueueAll(ghost b: Box, all: map<DeliveryId, Delivery>, expired: seq<DeliveryId>, now: Time)
      requires all == b.pending && Contents() == b.(pending := pending)
      requires forall d :: d in expired ==> d in DueIds(b, now)
      requires forall i, j :: 0 <= i < j < |expired| ==> expired[i] != expired[j]
      modifies this
      ensures Contents() == TimeOuts(b, expired, now).(pending := old(pending))
    {
      for k := 0 to |expired|
        invariant Contents() == TimeOuts(b, expired[..k], now).(pending := old(pending))
      {
        assert expired[k] in expired;
        var d := all[expired[k]];
        TimeOutsSnoc(b, expired, k, now);
        if d.to != "" && d.event.None? {
          var id := InsertRow(d.to, d.payload, now);
        }
      }
      assert expired[..|expired|] == expired;
    }

    /** The leased fetch. */
    method FetchPending(u: UserId, limit: int, token: Token, now: Time) returns (messages: seq<Payload>, leaseIds: seq<nat>)
      modifies this
      ensures Contents() == Fetch(old(Contents()), u, limit, token, now)
      ensures Ascending(leaseIds) && forall id :: id in leaseIds ==> id in old(queue)
      ensures forall id :: id in leaseIds <==> id in old(queue) && Offered(old(Contents()), u, limit, id, now)
                                               && Useful(old(queue)[id].payload, now)
      ensures messages == Payloads(old(queue), leaseIds)
    {
      hide Picked, Ascending, Payloads, Offered;
      ghost var b := Contents();
      PickedLowest(b, u, limit, now);
      var rows := Picked(Contents(), u, limit, now);
      leases := leases - OldLeases(Contents(), now);
      var staleIds: seq<nat>;
      messages, leaseIds, staleIds := SplitRows(rows, now);
      assert Members(staleIds) == StaleIds(b, u, limit, now);
      assert Members(leaseIds) == TakenIds(b, u, limit, now);
      queue := queue - (set id | id in staleIds);
      leases := leases + LeaseAll((set id | id in leaseIds), Lease(u, token, now + LEASE));
      forall id ensures id in Picked(b, u, limit, now) <==> Offered(b, u, limit, id, now) {
        PickedIsOffered(b, u, limit, now, id);
      }
    }

    /** The loop over the selected rows. */
    method SplitRows(rows: seq<nat>, now: Time) returns (messages: seq<Payload>, leaseIds: seq<nat>, staleIds: seq<nat>)
      requires Ascending(rows) && forall id :: id in rows ==> id in queue
      ensures Ascending(leaseIds) && (forall id :: id in leaseIds ==> id in queue) && messages == Payloads(queue, leaseIds)
      ensures forall id :: id in leaseIds <==> id in rows && id in queue && !Stale(queue[id].payload, now)
      ensures forall id :: id in staleIds <==> id in rows && id in queue && Stale(queue[id].payload, now)
    {
      messages, leaseIds, staleIds := [], [], [];
      for k := 0 to |rows|
        invariant (forall id :: id in leaseIds ==> id in queue) && messages == Payloads(queue, leaseIds)
        invariant Ascending(leaseIds) && (leaseIds != [] ==> k > 0 && leaseIds[|leaseIds| - 1] <= rows[k - 1])
        invariant forall id :: id in leaseIds <==> id in rows[..k] && !Stale(queue[id].payload, now)
        invariant forall id :: id in staleIds <==> id in rows[..k] && Stale(queue[id].payload, now)
      {
        hide *;
        OneRowMore(rows, k);
        assert rows[k] in rows;
        var p := queue[rows[k]].payload;
        if Stale(p, now) {
          staleIds := staleIds + [rows[k]];
        } else {
          AscendingSnoc(leaseIds, rows[k]);
          PayloadsSnoc(queue, leaseIds, rows[k]);
          leaseIds := leaseIds + [rows[k]];
          messages := messages + [p];
        }
      }
      assert rows[..|rows|] == rows;
    }

    method AckPending(u: UserId, token: Token, results: seq<AckResult>, ids: seq<int>, now: Time) returns (acked: nat)
      modifies this
      ensures Contents() == Ack(old(Contents()), u, token, Requested(results, ids), now)
      ensures forall id :: id in queue <==> id in old(queue) && !Acked(old(Contents()), u, token, results, ids, now, id)
      ensures acked == |old(queue)| - |queue|
    {
      hide LeasedUnder, TokenLeases, Requested, Waiting;
      ghost var b := Contents();
      var requested := NamedIds(results, ids);
      var ackIds := AckIds(Contents(), u, token, requested, now);
      var gone := ackIds * Waiting(Contents(), u);
      acked := |gone|;
      assert gone <= queue.Keys by {
        WaitingQueued(b, u);
      }
      KeysLess(queue, gone);
      queue := queue - gone;
      AckLeases(b, u, token, requested, now);
      leases := leases - (set id | id in leases && leases[id].receiver == u && id in ackIds);
      TokenLeasesOnly(Contents(), b.(leases := leases), u, token);
      leases := leases - TokenLeases(Contents(), u, token);
      assert Contents() == Ack(b, u, token, Requested(results, ids), now);
      forall id ensures id in queue <==> id in b.queue && !Acked(b, u, token, results, ids, now, id) {
        AckOutcome(b, u, token, results, ids, now, id);
      }
    }

    static method NamedIds(results: seq<AckResult>, ids: seq<int>) returns (requested: set<int>)
      ensures requested == Requested(results, ids)
    {
      requested := {};
      for k := 0 to |results|
        invariant requested == set r | r in results[..k] && r.id > 0 && r.ok :: r.id
      {
        NamedSnoc(results, k);
        if results[k].id > 0 && results[k].ok {
          requested := requested + {results[k].id};
        }
      }
      assert results[..|results|] == results;
      ghost var named := requested;
      for k := 0 to |ids|
        invariant requested == named + set id | id in ids[..k] && id > 0
      {
        assert ids[..k + 1] == ids[..k] + [ids[k]];
        if ids[k] > 0 {
          requested := requested + {ids[k]};
        }
      }
      assert ids[..|ids|] == ids;
    }

    /** The older fetch: everything goes, leased or not. */
    method DrainPending(u: UserId, now: Time) returns (messages: seq<Payload>)
      modifies this
      ensures Contents() == Drain(old(Contents()), u)
      ensures exists ids ::
                && Ascending(ids) && (forall id :: id in ids ==> id in old(queue)) && messages == Payloads(old(queue), ids)
                && forall id :: id in ids <==> id in old(queue) && old(queue)[id].receiver == u && Useful(old(queue)[id].payload, now)
    {
      var rows := Ordered(Waiting(Contents(), u));
      var ids: seq<nat>, stale: seq<nat>;
      messages, ids, stale := SplitRows(rows, now);
      assert forall id :: id in ids <==> id in queue && queue[id].receiver == u && Useful(queue[id].payload, now);
      queue := queue - Waiting(Contents(), u);
    }

    method HealLeases(now: Time)
      modifies this
      ensures Contents() == Heal(old(Contents()), now)
    {
      leases := leases - OldLeases(Contents(), now);
    }

    method CleanUpBox(now: Time)
      modifies this
      ensures Contents() == CleanUp(old(Contents()), now)
    {
      queue := queue - TooOld(Contents(), now);
      DropDeadEvents(now);
    }

    method PurgeUser(u: UserId)
      modifies this
      ensures Contents() == Purge(old(Contents()), u)
    {
      var ids := Mentioning(Contents(), u);
      leases := leases - ids;
      queue := queue - ids;
      leases := leases - LeasesOf(Contents(), u);
      assert leases == old(leases) - ids - LeasesOf(old(Contents()), u);
    }
  }

  lemma NamedSnoc(results: seq<AckResult>, k: nat)
    requires k < |results|
    ensures (set r | r in results[..k + 1] && r.id > 0 && r.ok :: r.id)
         == (set r | r in results[..k] && r.id > 0 && r.ok :: r.id)
            + if results[k].id > 0 && results[k].ok then {results[k].id} else {}
  {
    assert results[..k + 1] == results[..k] + [results[k]];
  }

  lemma {:induction false} NoneAwaited(pending: map<DeliveryId, Delivery>, sends: seq<Send>, d: Delivery)
    requires !Reached(sends)
    ensures Await(pending, sends, d) == pending
  {
    if sends != [] {
      NoneAwaited(pending, sends[..|sends| - 1], d);
    }
  }
}
