/** The handlers of read marks, unread entries and the badge, over their two tables. */
module ReadStore {
  import opened Wrappers
  import opened Text
  import opened ReadCursor
  import opened Unread

  class Store {
    var unread: Table
    var cursors: Cursors

    constructor ()
      ensures Contents() == State(map[], map[])
    {
      unread, cursors := map[], map[];
    }

    function Contents(): State
      reads this
    {
      State(unread, cursors)
    }

    method UpsertReadCursor(k: Key, msgId: string, rank: int, now: Time, device: Option<string>) returns (a: Applied)
      modifies this`cursors
      ensures (cursors, a) == Upsert(old(cursors), k, msgId, rank, now, device)
      ensures k in cursors && cursors[k].rank == if k in old(cursors) then Max(old(cursors)[k].rank, Clamp(rank)) else Clamp(rank)
      ensures forall j :: j != k ==> RowOf(cursors, j) == RowOf(old(cursors), j)
    {
      var safe := Clamp(rank);
      if k in cursors {
        var current := cursors[k];
        if safe < current.rank {
          return Applied(false, if current.msgId != "" then current.msgId else msgId, current.rank);
        }
      }
      cursors := cursors[k := Merge(RowOf(cursors, k), msgId, safe, now, device, false)];
      var updated := cursors[k];
      a := Applied(updated.rank >= safe, updated.msgId, updated.rank);
    }

    /** True when the message is one that counts, even if its row was there already. */
    method UpsertUnreadMessage(user: UserId, sender: UserId, m: Msg, now: int) returns (counted: bool)
      modifies this`unread
      ensures unread == Insert(old(unread), user, sender, m, now)
      ensures counted <==> Counts(user, sender, m)
    {
      if !Tracked(m) {
        return false;
      }
      var receiver, msgId, peer := Strip(user), Strip(m.id), PeerOf(m, sender);
      if receiver == "" || msgId == "" || peer == "" {
        return false;
      }
      if Slot(receiver, msgId) !in unread {
        unread := unread[Slot(receiver, msgId) := Entry(peer, RankOf(m, now))];
      }
      counted := true;
    }

    method MarkReadUpTo(user: UserId, peer: UserId, rank: int) returns (deleted: nat)
      modifies this`unread
      ensures unread == MarkRead(old(unread), user, peer, rank)
      ensures deleted == |old(unread)| - |unread|
    {
      var receiver, other, safe := Strip(user), Strip(peer), Clamp(rank);
      if receiver == "" || other == "" || safe <= 0 {
        return 0;
      }
      var gone := Covered(unread, receiver, other, safe);
      deleted := |gone|;
      assert (unread - gone).Keys == unread.Keys - gone && |unread.Keys - gone| == |unread.Keys| - |gone|;
      unread := unread - gone;
    }

    method UnreadCount(user: UserId) returns (count: nat)
      requires forall s :: s in unread ==> s.user != ""
      ensures count == |Badge(unread, user)|
    {
      var receiver := Strip(user);
      if receiver == "" {
        assert Badge(unread, user) == {};
        return 0;
      }
      count := |set s | s in unread && s.user == receiver|;
    }

    /** The websocket read mark. */
    method HandleReadUpTo(user: UserId, peer: UserId, msgId: string, rank: int, now: Time, device: Option<string>)
      modifies this
      ensures Contents() == ReadUpTo(old(Contents()), user, peer, msgId, rank, now, device)
    {
      if peer == "" || msgId == "" {
        return;
      }
      var a := UpsertReadCursor(Key(user, peer), msgId, rank, now, device);
      var deleted := MarkReadUpTo(user, peer, a.rank);
    }

    method ForgetAccount(u: UserId)
      modifies this
      ensures Contents() == Step(old(Contents()), Forget(u))
    {
      unread := unread - Concerning(unread, u);
      cursors := cursors - KeysOf(cursors, u);
    }
  }
}
