/** The unread table and the badge count, and their interplay with the read cursor. */
module Unread {
  import opened Wrappers
  import opened Text
  import opened ReadCursor

  /** `kind` is the wire type; `inner` the message type; `rank` and `stamp` are parsed values. */
  datatype Msg = Msg(id: string, group: string, kind: string, inner: Option<int>, rank: Option<int>, stamp: Option<int>)

  datatype Slot = Slot(user: UserId, msgId: string)

  datatype Entry = Entry(peer: UserId, rank: int)

  type Table = map<Slot, Entry>

  predicate Tracked(m: Msg) {
    && m.inner != Some(3) && m.inner != Some(9)
    && Lower(Strip(m.kind)) !in
         {"delivery_receipt", "read_receipt", "read_up_to", "read_up_to_ack", "delivery_ack", "delete_message"}
  }

  /** The group, or else the sender; "" when there is neither. */
  function PeerOf(m: Msg, sender: UserId): UserId {
    if Strip(m.group) != "" then Strip(m.group) else Strip(sender)
  }

  function RankOf(m: Msg, now: int): int {
    if m.rank.Some? && m.rank.value > 0 then Clamp(m.rank.value)
    else if m.stamp.Some? then Clamp(m.stamp.value)
    else Clamp(now)
  }

  function SlotOf(user: UserId, m: Msg): Slot {
    Slot(Strip(user), Strip(m.id))
  }

  predicate Counts(user: UserId, sender: UserId, m: Msg) {
    Tracked(m) && Strip(user) != "" && Strip(m.id) != "" && PeerOf(m, sender) != ""
  }

  /** INSERT OR IGNORE. */
  function Insert(t: Table, user: UserId, sender: UserId, m: Msg, now: int): Table {
    if !Counts(user, sender, m) || SlotOf(user, m) in t then t
    else t[SlotOf(user, m) := Entry(PeerOf(m, sender), RankOf(m, now))]
  }

  function Covered(t: Table, user: UserId, peer: UserId, rank: int): set<Slot> {
    set s | s in t && s.user == user && t[s].peer == peer && t[s].rank <= rank
  }

  function MarkRead(t: Table, user: UserId, peer: UserId, rank: int): Table {
    if Strip(user) == "" || Strip(peer) == "" || Clamp(rank) <= 0 then t
    else t - Covered(t, Strip(user), Strip(peer), Clamp(rank))
  }

  function Concerning(t: Table, u: UserId): set<Slot> {
    set s | s in t && (s.user == u || t[s].peer == u)
  }

  function Badge(t: Table, u: UserId): set<Slot> {
    set s | s in t && s.user == Strip(u)
  }

  // ---------- Runs ----------

  datatype State = State(unread: Table, cursors: Cursors)

  datatype Action =
    | Arrive(user: UserId, sender: UserId, m: Msg, now: int)
    | Read(user: UserId, peer: UserId, msgId: string, rank: int, now: Time, device: Option<string>)
    | Forget(u: UserId)

  /** A read mark first moves the cursor, then deletes up to the rank the cursor ended at. */
  function ReadUpTo(s: State, user: UserId, peer: UserId, msgId: string, rank: int, now: Time, device: Option<string>): State {
    if peer == "" || msgId == "" then s
    else
      var (cursors, a) := Upsert(s.cursors, Key(user, peer), msgId, rank, now, device);
      State(MarkRead(s.unread, user, peer, a.rank), cursors)
  }

  function KeysOf(t: Cursors, u: UserId): set<Key> {
    set k | k in t && (k.user == u || k.peer == u)
  }

  function Step(s: State, a: Action): State {
    match a
    case Arrive(user, sender, m, now) => s.(unread := Insert(s.unread, user, sender, m, now))
    case Read(user, peer, msgId, rank, now, device) => ReadUpTo(s, user, peer, msgId, rank, now, device)
    case Forget(u) => State(s.unread - Concerning(s.unread, u), s.cursors - KeysOf(s.cursors, u))
  }

  function At(run: seq<Action>, n: nat): State
    requires n <= |run|
  {
    if n == 0 then State(map[], map[]) else Step(At(run, n - 1), run[n - 1])
  }

  /** The read marks of the pair k among the first n steps, since the last purge of either account. */
  function Submitted(run: seq<Action>, n: nat, k: Key): seq<Update>
    requires n <= |run|
  {
    if n == 0 then []
    else
      match run[n - 1]
      case Arrive(_, _, _, _) => Submitted(run, n - 1, k)
      case Read(user, peer, msgId, rank, now, device) =>
        Submitted(run, n - 1, k)
        + if Key(user, peer) == k && peer != "" && msgId != "" then [Update(k, msgId, rank, now, device)] else []
      case Forget(u) => if u == k.user || u == k.peer then [] else Submitted(run, n - 1, k)
  }

  lemma ReadMoves(s: State, user: UserId, peer: UserId, msgId: string, rank: int, now: Time, device: Option<string>, k: Key)
    ensures var t' := ReadUpTo(s, user, peer, msgId, rank, now, device).cursors;
            RowOf(t', k) == if Key(user, peer) == k && peer != "" && msgId != ""
                            then RowOf(Upsert(s.cursors, k, msgId, rank, now, device).0, k) else RowOf(s.cursors, k)
  {
    hide MarkRead, Merge;
  }

  /** The upsert looks only at the row of its own key. */
  lemma UpsertOfRow(t: Cursors, t': Cursors, k: Key, msgId: string, rank: int, now: Time, device: Option<string>)
    requires RowOf(t, k) == RowOf(t', k)
    ensures RowOf(Upsert(t, k, msgId, rank, now, device).0, k) == RowOf(Upsert(t', k, msgId, rank, now, device).0, k)
  {
  }

  lemma CursorReads(s: State, us: seq<Update>, user: UserId, peer: UserId, msgId: string, rank: int, now: Time,
                    device: Option<string>, k: Key)
    requires RowOf(s.cursors, k) == RowOf(Replay(map[], us), k)
    ensures var us' := us + if Key(user, peer) == k && peer != "" && msgId != "" then [Update(k, msgId, rank, now, device)] else [];
            RowOf(ReadUpTo(s, user, peer, msgId, rank, now, device).cursors, k) == RowOf(Replay(map[], us'), k)
  {
    ReadMoves(s, user, peer, msgId, rank, now, device, k);
    assert us + [] == us;
    ReplayStep(map[], us, Update(k, msgId, rank, now, device));
    UpsertOfRow(s.cursors, Replay(map[], us), k, msgId, rank, now, device);
    hide Replay, Upsert, ReadUpTo, RowOf;
  }

  lemma ForgetMoves(s: State, u: UserId, k: Key)
    ensures RowOf(Step(s, Forget(u)).cursors, k) == if u == k.user || u == k.peer then None else RowOf(s.cursors, k)
  {
  }

  lemma NoCursor(k: Key)
    ensures Replay(map[], []) == map[] && RowOf(map[], k) == None
  {
  }

  lemma {:induction false} CursorReplays(run: seq<Action>, n: nat, k: Key)
    requires n <= |run|
    ensures RowOf(At(run, n).cursors, k) == RowOf(Replay(map[], Submitted(run, n, k)), k)
  {
    if n > 0 {
      hide Replay, Insert, ReadUpTo, RowOf;
      CursorReplays(run, n - 1, k);
      NoCursor(k);
      var s, us := At(run, n - 1), Submitted(run, n - 1, k);
      match run[n - 1]
      case Arrive(_, _, _, _) =>
      case Read(user, peer, msgId, rank, now, device) => CursorReads(s, us, user, peer, msgId, rank, now, device, k);
      case Forget(u) => ForgetMoves(s, u, k);
    } else {
      NoCursor(k);
    }
  }

  /** In every run the cursor of a pair is the running maximum: its rank is the largest clamped rank submitted since the
      last purge, and its message that of the last mark that reached it. */
  lemma CursorIsMaximum(run: seq<Action>, n: nat, k: Key)
    requires n <= |run|
    ensures k in At(run, n).cursors <==> Submitted(run, n, k) != []
    ensures k in At(run, n).cursors ==>
              var row, us := At(run, n).cursors[k], Submitted(run, n, k);
              IsTop(map[], us, k, row.rank) && IsLastReaching(map[], us, k, row.rank, row)
  {
    hide At, Replay, IsTop, IsLastReaching;
    CursorReplays(run, n, k);
    CursorFold(map[], Submitted(run, n, k), k);
    SubmittedFor(run, n, k);
    if Submitted(run, n, k) != [] {
      assert Touches(Submitted(run, n, k), 0, k);
    }
  }

  lemma {:induction false} SubmittedFor(run: seq<Action>, n: nat, k: Key)
    requires n <= |run|
    ensures forall i :: 0 <= i < |Submitted(run, n, k)| ==> Touches(Submitted(run, n, k), i, k)
  {
    if n > 0 {
      SubmittedFor(run, n - 1, k);
      var us, us' := Submitted(run, n - 1, k), Submitted(run, n, k);
      forall i | 0 <= i < |us'| ensures Touches(us', i, k) {
        if i < |us| {
          assert Touches(us, i, k);
        }
      }
    }
  }

  /** The rank the cursor ended at is positive and at least `rank`; or the account is purged. */
  ghost predicate Covers(run: seq<Action>, j: nat, user: UserId, peer: UserId, rank: int)
    requires j < |run|
  {
    match run[j]
    case Arrive(_, _, _, _) => false
    case Read(u, p, msgId, _, _, _) =>
      && p != "" && msgId != "" && Strip(u) == user && Strip(p) == peer && user != "" && peer != ""
      && Key(u, p) in At(run, j + 1).cursors
      && At(run, j + 1).cursors[Key(u, p)].rank > 0 && At(run, j + 1).cursors[Key(u, p)].rank >= rank
    case Forget(u) => u == user || u == peer
  }

  predicate RanksFit(s: State) {
    && (forall k :: k in s.cursors ==> INT64_MIN <= s.cursors[k].rank <= INT64_MAX)
    && (forall x :: x in s.unread ==> INT64_MIN <= s.unread[x].rank <= INT64_MAX)
  }

  lemma {:induction false} RanksFitAt(run: seq<Action>, n: nat)
    requires n <= |run|
    ensures RanksFit(At(run, n))
  {
    if n > 0 {
      hide Step;
      RanksFitAt(run, n - 1);
      RanksFitStep(At(run, n - 1), run[n - 1]);
    }
  }

  lemma RanksFitStep(s: State, a: Action)
    requires RanksFit(s)
    ensures RanksFit(Step(s, a))
  {
    hide Strip, Tracked;
  }

  /** An entry leaves exactly when the step covers it, and otherwise does not change. */
  lemma EntryStep(run: seq<Action>, j: nat, slot: Slot)
    requires j < |run| && slot in At(run, j).unread
    ensures var e := At(run, j).unread[slot];
            && (slot in At(run, j + 1).unread <==> !Covers(run, j, slot.user, e.peer, e.rank))
            && (slot in At(run, j + 1).unread ==> At(run, j + 1).unread[slot] == e)
  {
    hide Strip, Tracked;
    RanksFitAt(run, j);
    NamedSlots(run, j, slot);
  }

  lemma {:induction false} NamedSlots(run: seq<Action>, n: nat, slot: Slot)
    requires n <= |run| && slot in At(run, n).unread
    ensures slot.user != "" && At(run, n).unread[slot].peer != ""
  {
    hide Strip, Tracked;
    if n > 0 && slot in At(run, n - 1).unread {
      NamedSlots(run, n - 1, slot);
    }
  }

  /** Step k puts the entry into the table: the insert was not ignored. */
  ghost predicate Enters(run: seq<Action>, k: nat, slot: Slot)
    requires k < |run|
  {
    slot !in At(run, k).unread && slot in At(run, k + 1).unread
  }

  ghost predicate Uncovered(run: seq<Action>, k: nat, n: nat, slot: Slot, e: Entry)
    requires k < n <= |run|
  {
    forall j :: k < j < n ==> !Covers(run, j, slot.user, e.peer, e.rank)
  }

  ghost predicate StillUnread(run: seq<Action>, k: nat, n: nat, slot: Slot)
    requires k < n <= |run|
  {
    Enters(run, k, slot) && Uncovered(run, k, n, slot, At(run, k + 1).unread[slot])
  }

  lemma {:induction false} StaysUncovered(run: seq<Action>, k: nat, n: nat, slot: Slot)
    requires k < n <= |run| && slot in At(run, k + 1).unread
    requires Uncovered(run, k, n, slot, At(run, k + 1).unread[slot])
    ensures slot in At(run, n).unread && At(run, n).unread[slot] == At(run, k + 1).unread[slot]
    decreases n
  {
    if k + 1 < n {
      hide Step, Covers;
      StaysUncovered(run, k, n - 1, slot);
      EntryStep(run, n - 1, slot);
    }
  }

  lemma {:induction false} HasEntered(run: seq<Action>, n: nat, slot: Slot)
    requires n <= |run| && slot in At(run, n).unread
    ensures exists k :: 0 <= k < n && StillUnread(run, k, n, slot)
    ensures forall k :: 0 <= k < n && StillUnread(run, k, n, slot) ==> At(run, k + 1).unread[slot] == At(run, n).unread[slot]
    decreases n
  {
    hide Step, Covers;
    forall k | 0 <= k < n && StillUnread(run, k, n, slot) ensures At(run, k + 1).unread[slot] == At(run, n).unread[slot] {
      StaysUncovered(run, k, n, slot);
    }
    if slot in At(run, n - 1).unread {
      HasEntered(run, n - 1, slot);
      var k :| 0 <= k < n - 1 && StillUnread(run, k, n - 1, slot);
      EntryStep(run, n - 1, slot);
      assert StillUnread(run, k, n, slot);
    } else {
      assert StillUnread(run, n - 1, n, slot);
    }
  }

  /** Unread, exactly: a message is unread iff some insert of it took effect and no later read mark on its
      peer reached its rank. */
  lemma UnreadExactly(run: seq<Action>, n: nat, slot: Slot)
    requires n <= |run|
    ensures slot in At(run, n).unread <==> exists k :: 0 <= k < n && StillUnread(run, k, n, slot)
  {
    hide Step, Covers;
    if slot in At(run, n).unread {
      HasEntered(run, n, slot);
    }
    if k :| 0 <= k < n && StillUnread(run, k, n, slot) {
      StaysUncovered(run, k, n, slot);
    }
  }

  predicate Sent(a: Action, slot: Slot) {
    a.Arrive? && Counts(a.user, a.sender, a.m) && SlotOf(a.user, a.m) == slot
  }

  /** Every copy of the message names the same peer and rank. */
  ghost predicate Stable(run: seq<Action>, slot: Slot, e: Entry) {
    forall k :: 0 <= k < |run| && Sent(run[k], slot) ==> Entry(PeerOf(run[k].m, run[k].sender), RankOf(run[k].m, run[k].now)) == e
  }

  lemma {:induction false} StableEntry(run: seq<Action>, n: nat, slot: Slot, e: Entry)
    requires n <= |run| && Stable(run, slot, e) && slot in At(run, n).unread
    ensures At(run, n).unread[slot] == e
  {
    hide Strip, Tracked, RankOf, PeerOf;
    if n > 0 {
      if slot in At(run, n - 1).unread {
        StableEntry(run, n - 1, slot, e);
        EntryStep(run, n - 1, slot);
      } else {
        assert Sent(run[n - 1], slot);
      }
    }
  }

  lemma SentIsUnread(run: seq<Action>, k: nat, slot: Slot)
    requires k < |run| && Sent(run[k], slot)
    ensures slot in At(run, k + 1).unread
  {
    hide Strip, Tracked;
  }

  lemma EntersIsSent(run: seq<Action>, k: nat, slot: Slot)
    requires k < |run| && Enters(run, k, slot)
    ensures Sent(run[k], slot)
  {
    hide Strip, Tracked;
  }

  ghost predicate SentUncovered(run: seq<Action>, k: nat, n: nat, slot: Slot, e: Entry)
    requires k < n <= |run|
  {
    Sent(run[k], slot) && Uncovered(run, k, n, slot, e)
  }

  /** With stable peers and ranks it does not matter which inserts took effect. */
  lemma UnreadWhenStable(run: seq<Action>, n: nat, slot: Slot, e: Entry)
    requires n <= |run| && Stable(run, slot, e)
    ensures slot in At(run, n).unread <==> exists k :: 0 <= k < n && SentUncovered(run, k, n, slot, e)
  {
    hide Step, Covers, Sent, Stable;
    if slot in At(run, n).unread {
      HasEntered(run, n, slot);
      var k :| 0 <= k < n && StillUnread(run, k, n, slot);
      EntersIsSent(run, k, slot);
      StableEntry(run, k + 1, slot, e);
      assert SentUncovered(run, k, n, slot, e);
    }
    if k :| 0 <= k < n && SentUncovered(run, k, n, slot, e) {
      SentIsUnread(run, k, slot);
      StableEntry(run, k + 1, slot, e);
      StaysUncovered(run, k, n, slot);
    }
  }

  /** Without stability a copy that was ignored can be sent, never be covered, and not be unread: the first
      copy decides which marks count. */
  lemma IgnoredCopy()
    ensures var m := Msg("id", "", "message", None, Some(5), None);
            var run := [Arrive("u", "a", m, 0), Arrive("u", "b", m, 0), Read("u", "a", "id", 5, 0, None)];
            var slot, second := Slot("u", "id"), Entry("b", 5);
            SentUncovered(run, 1, 3, slot, second) && slot !in At(run, 3).unread
  {
    var m := Msg("id", "", "message", None, Some(5), None);
    var run := [Arrive("u", "a", m, 0), Arrive("u", "b", m, 0), Read("u", "a", "id", 5, 0, None)];
    var slot := Slot("u", "id");
    assert Strip("u") == "u" && Strip("a") == "a" && Strip("b") == "b" && Strip("id") == "id" && Strip("") == "";
    PlainMessage(m);
    assert At(run, 0) == State(map[], map[]);
    assert At(run, 1).unread == map[slot := Entry("a", 5)];
    assert At(run, 2) == At(run, 1);
    assert At(run, 3).cursors[Key("u", "a")].rank == 5;
    assert slot in Covered(At(run, 2).unread, "u", "a", 5);
  }

  lemma PlainMessage(m: Msg)
    requires m.kind == "message" && m.inner == None
    ensures Tracked(m)
  {
    assert Strip("message") == "message";
    assert Lower("message") == "message";
  }

  // ---------- Which mark clears which message ----------

  /** The messages that never count: two inner types of protocol control, and receipts, read marks, acknowledgements and deletions. */
  predicate Silent(m: Msg) {
    || m.inner in {Some(3), Some(9)}
    || Lower(Strip(m.kind)) in
         ["delete_message", "delivery_ack", "delivery_receipt", "read_receipt", "read_up_to", "read_up_to_ack"]
  }

  /** A group message belongs to its group, any other to its sender. */
  function BelongsTo(m: Msg, sender: UserId): UserId {
    if Strip(m.group) == "" then Strip(sender) else Strip(m.group)
  }

  /** The positive rank it came with, or else its time stamp, or else the time it came. */
  function Standing(m: Msg, now: int): int {
    var dated := if m.stamp == None then now else m.stamp.value;
    Clamp(if m.rank == None || m.rank.value <= 0 then dated else m.rank.value)
  }

  /** A message that came in is counted, and a mark then clears it, exactly if they fit: a mark by its recipient on its group, or
      on its sender if it has no group, with a positive rank that reaches its own. */
  lemma ClearedExactly(t: Table, user: UserId, sender: UserId, m: Msg, now: int, reader: UserId, peer: UserId, rank: int)
    requires Slot(Strip(user), Strip(m.id)) !in t
    ensures var slot, t1 := Slot(Strip(user), Strip(m.id)), Insert(t, user, sender, m, now);
            && (slot in t1 <==> !Silent(m) && Strip(user) != "" && Strip(m.id) != "" && BelongsTo(m, sender) != "")
            && t1 - {slot} == t
            && (slot in t1 ==>
                  (slot !in MarkRead(t1, reader, peer, rank) <==>
                     && Strip(reader) == Strip(user) && Strip(peer) == BelongsTo(m, sender)
                     && Clamp(rank) > 0 && Standing(m, now) <= Clamp(rank)))
  {
    SilentIsUntracked(m);
    hide Tracked, Silent, Strip, Clamp;
  }

  lemma SilentIsUntracked(m: Msg)
    ensures Tracked(m) <==> !Silent(m)
  {
    hide Strip, Lower;
  }

  /** A mark on a group clears its messages whoever sent them, and a mark on a sender clears none of a group. */
  lemma GroupCleared(t: Table, user: UserId, sender: UserId, m: Msg, now: int, rank: int)
    requires Slot(Strip(user), Strip(m.id)) !in t && !Silent(m) && Strip(user) != "" && Strip(m.id) != ""
    requires Strip(m.group) != "" && Strip(m.group) != Strip(sender)
    ensures var slot, t1 := Slot(Strip(user), Strip(m.id)), Insert(t, user, sender, m, now);
            && slot in t1 && slot in MarkRead(t1, user, sender, rank)
            && (Standing(m, now) <= Clamp(rank) && Clamp(rank) > 0 ==> slot !in MarkRead(t1, user, m.group, rank))
  {
    hide Strip, Silent, Insert, MarkRead, Standing;
    ClearedExactly(t, user, sender, m, now, user, sender, rank);
    ClearedExactly(t, user, sender, m, now, user, m.group, rank);
  }

  /** A mark takes only rows of its reader and peer up to its rank, all of them, and changes no other. */
  lemma MarkExactly(t: Table, reader: UserId, peer: UserId, rank: int, slot: Slot)
    requires slot in t
    ensures slot in MarkRead(t, reader, peer, rank) <==>
              !(Strip(reader) != "" && Strip(peer) != "" && Clamp(rank) > 0
                && slot.user == Strip(reader) && t[slot].peer == Strip(peer) && t[slot].rank <= Clamp(rank))
    ensures slot in MarkRead(t, reader, peer, rank) ==> MarkRead(t, reader, peer, rank)[slot] == t[slot]
  {
    hide Strip, Clamp;
  }

  /** The badge counts exactly the unread messages of the user. */
  lemma BadgeExactly(run: seq<Action>, n: nat, u: UserId, unread: set<Slot>)
    requires n <= |run|
    requires forall s :: s in unread <==> s.user == Strip(u) && exists k :: 0 <= k < n && StillUnread(run, k, n, s)
    ensures |Badge(At(run, n).unread, u)| == |unread|
  {
    hide Step, StillUnread;
    forall s ensures s in unread <==> s in Badge(At(run, n).unread, u) {
      UnreadExactly(run, n, s);
    }
    assert unread == Badge(At(run, n).unread, u);
  }
}
