/** Each transaction keeps the storage counters exact, and its MAX(0, ...) never matters. */
module Conservation {
  import opened Container
  import opened Ledger
  import opened Uploads

  lemma ReservationsMinus(sessions: map<UploadId, Session>, gone: set<UploadId>)
    ensures Reservations(sessions - gone) == Reservations(sessions) - gone
  {
  }

  lemma HoldingsMinus(registry: map<FileId, FileRow>, gone: set<FileId>)
    ensures Holdings(registry - gone) == Holdings(registry) - gone
  {
  }

  lemma ReservationsSet(sessions: map<UploadId, Session>, id: UploadId, row: Session)
    ensures row.phase != Committed ==> Reservations(sessions[id := row]) == Reservations(sessions)[id := Debt(row.owner, row.reserved)]
    ensures row.phase == Committed ==> Reservations(sessions[id := row]) == Reservations(sessions) - {id}
  {
  }

  lemma HoldingsSet(registry: map<FileId, FileRow>, f: FileId, row: FileRow)
    ensures Holdings(registry[f := row]) == Holdings(registry)[f := Debt(row.owner, row.size)]
  {
  }

  lemma DropSessionsConserves(t: Tables, gone: set<UploadId>, clamp: bool)
    requires Conserved(t)
    ensures Conserved(DropSessions(t, gone, clamp))
    ensures DropSessions(t, gone, clamp) == DropSessions(t, gone, false)
  {
    PayKeeps(t.users, Reservations(t.sessions), Holdings(t.registry), gone, clamp);
    ReservationsMinus(t.sessions, gone);
  }

  lemma DropFilesConserves(t: Tables, fs: set<FileId>, clamp: bool)
    requires Conserved(t)
    ensures Conserved(DropFiles(t, fs, clamp))
    ensures DropFiles(t, fs, clamp) == DropFiles(t, fs, false)
  {
    BalancedSwap(t.users, Reservations(t.sessions), Holdings(t.registry));
    PayKeeps(t.users, Holdings(t.registry), Reservations(t.sessions), fs, clamp);
    HoldingsMinus(t.registry, fs);
    BalancedSwap(DropFiles(t, fs, clamp).users, Holdings(t.registry - fs), Reservations(t.sessions));
  }

  lemma DropFileConserves(t: Tables, f: FileId, clamp: bool)
    requires Conserved(t) && f in t.registry
    ensures Conserved(DropFile(t, f, clamp))
    ensures DropFile(t, f, clamp) == DropFile(t, f, false)
  {
    BalancedSwap(t.users, Reservations(t.sessions), Holdings(t.registry));
    ReleaseKeeps(t.users, Holdings(t.registry), Reservations(t.sessions), f, clamp);
    HoldingsMinus(t.registry, {f});
    BalancedSwap(DropFile(t, f, clamp).users, Holdings(t.registry - {f}), Reservations(t.sessions));
  }

  lemma CreateConserves(t: Tables, u: UserId, request: string, size: int, count: int, digest: Digest, limit: int, id: UploadId, now: Time)
    requires Conserved(t)
    ensures Conserved(Create(t, u, request, size, count, digest, limit, id, now).0)
  {
    var t' := Create(t, u, request, size, count, digest, limit, id, now).0;
    if t' != t {
      ChargeKeeps(t.users, Reservations(t.sessions), Holdings(t.registry), id, Debt(u, size));
      ReservationsSet(t.sessions, id, t'.sessions[id]);
    }
  }

  lemma CancelConserves(t: Tables, u: UserId, up: UploadId, clamp: bool)
    requires Conserved(t)
    ensures Conserved(Cancel(t, u, up, clamp).0)
    ensures Cancel(t, u, up, clamp) == Cancel(t, u, up, false)
  {
    if Owns(t, u, up) && t.sessions[up].phase != Committed {
      ReleaseKeeps(t.users, Reservations(t.sessions), Holdings(t.registry), up, clamp);
      ReservationsMinus(t.sessions, {up});
    }
  }

  /** A commit turns the reservation into a row, which needs the assembled size to be the reserved one. */
  lemma SettleConserves(t: Tables, up: UploadId, committed: Session, f: FileId, row: FileRow)
    requires Conserved(t) && up in t.sessions && t.sessions[up].phase != Committed && f !in t.registry
    requires committed.phase == Committed
    requires row.owner == t.sessions[up].owner && row.size == t.sessions[up].reserved
    ensures Balanced(t.users, Reservations(t.sessions[up := committed]), Holdings(t.registry[f := row]))
  {
    MoveKeeps(t.users, Reservations(t.sessions), Holdings(t.registry), up, f);
    ReservationsSet(t.sessions, up, committed);
    HoldingsSet(t.registry, f, row);
  }

  lemma FinishConserves(t: Tables, c: Snap, size: nat, now: Time)
    requires Conserved(t)
    requires c.upload in t.sessions ==> t.sessions[c.upload].reserved == size
    ensures Conserved(Finish(t, c, size, now).0)
  {
    if Owns(t, c.owner, c.upload) && t.sessions[c.upload].phase == Committing && c.fileId !in t.registry {
      var t' := Finish(t, c, size, now).0;
      SettleConserves(t, c.upload, t'.sessions[c.upload], c.fileId, t'.registry[c.fileId]);
    }
  }

  lemma ReserveConserves(t: Tables, u: UserId, f: FileId, row: FileRow)
    requires Conserved(t) && u in t.users && f !in t.registry && row.owner == u
    ensures Conserved(t.(registry := t.registry[f := row], users := Charge(t.users, u, row.size)))
  {
    BalancedSwap(t.users, Reservations(t.sessions), Holdings(t.registry));
    ChargeKeeps(t.users, Holdings(t.registry), Reservations(t.sessions), f, Debt(u, row.size));
    HoldingsSet(t.registry, f, row);
    BalancedSwap(Charge(t.users, u, row.size), Holdings(t.registry[f := row]), Reservations(t.sessions));
  }

  lemma RollbackConserves(t: Tables, f: FileId, u: UserId, size: nat, clamp: bool)
    requires Conserved(t)
    requires f in t.registry ==> t.registry[f].owner == u && t.registry[f].size == size
    ensures Conserved(Rollback(t, f, u, size, clamp))
    ensures Rollback(t, f, u, size, clamp) == Rollback(t, f, u, size, false)
  {
    if f in t.registry {
      DropFileConserves(t, f, clamp);
    }
  }

  lemma CleanFilesConserves(t: Tables, now: Time, clamp: bool)
    requires Conserved(t)
    ensures Conserved(CleanFiles(t, now, clamp))
    ensures CleanFiles(t, now, clamp) == CleanFiles(t, now, false)
  {
    DropFilesConserves(t, StalePending(t, now), clamp);
    var t1 := DropFiles(t, StalePending(t, now), clamp);
    DropFilesConserves(t1, ExpiredFiles(t1, now), false);
  }

  lemma PurgeConserves(t: Tables, u: UserId, clamp: bool)
    requires Conserved(t)
    ensures Conserved(Purge(t, u, clamp)) && Purge(t, u, clamp) == Purge(t, u, false)
    ensures OwnedBy(Purge(t, u, clamp), u) == {}
    ensures Purge(t, u, clamp).users.Keys == t.users.Keys && Purge(t, u, clamp).registry == t.registry
  {
    DropSessionsConserves(t, OwnedBy(t, u), clamp);
  }

  lemma NoSessionsNoDebt(t: Tables, u: UserId)
    requires OwnedBy(t, u) == {}
    ensures !Owes(Reservations(t.sessions), u)
  {
    forall id | id in t.sessions ensures t.sessions[id].owner != u {
      assert id !in OwnedBy(t, u);
    }
  }

  lemma FilesMinus(t: Tables, u: UserId)
    ensures !Owes(Holdings(t.registry - FilesOf(t, u)), u)
  {
  }

  /** Dropping the files of a user without sessions leaves a zero counter and balanced books. */
  lemma DropFilesOf(t: Tables, u: UserId)
    requires Conserved(t) && u in t.users && OwnedBy(t, u) == {}
    ensures Balanced(t.users[u := 0], Reservations(t.sessions), Holdings(t.registry - FilesOf(t, u)))
    ensures FilesOf(t, u) == {} ==> t.users[u] == 0
  {
    var a, b := Reservations(t.sessions), Holdings(t.registry);
    var fs := FilesOf(t, u);
    NoSessionsNoDebt(t, u);
    OwedNone(a, u);
    BalancedSwap(t.users, a, b);
    PayAllOf(t.users, b, a, u, fs, false);
    HoldingsMinus(t.registry, fs);
    BalancedSwap(t.users[u := 0], b - fs, a);
    if fs == {} {
      assert t.registry - fs == t.registry;
      FilesMinus(t, u);
      OwedNone(b, u);
    }
  }

  /** After the purge the user owes only for files, so the counter of a user
      without files is already zero and the early return skips nothing. */
  lemma EarlyReturnSound(t: Tables, u: UserId)
    requires Conserved(t) && u in t.users && OwnedBy(t, u) == {}
    ensures RemoveFiles(t, u).users == t.users[u := 0]
    ensures RemoveFiles(t, u).registry == t.registry - FilesOf(t, u)
    ensures Conserved(RemoveFiles(t, u))
  {
    DropFilesOf(t, u);
    if FilesOf(t, u) == {} {
      assert t.registry - FilesOf(t, u) == t.registry;
    }
  }

  lemma RemoveUserFilesConserves(t: Tables, u: UserId, clamp: bool)
    requires Conserved(t)
    ensures Conserved(RemoveUserFiles(t, u, clamp))
    ensures RemoveUserFiles(t, u, clamp) == RemoveUserFiles(t, u, false)
    ensures u in t.users ==> RemoveUserFiles(t, u, clamp).users[u] == 0
  {
    PurgeConserves(t, u, clamp);
    var t1 := Purge(t, u, clamp);
    if u in t.users {
      EarlyReturnSound(t1, u);
    } else {
      NotAUser(t1, u);
    }
  }

  lemma NotAUser(t: Tables, u: UserId)
    requires Conserved(t) && u !in t.users
    ensures FilesOf(t, u) == {} && OwnedBy(t, u) * (set id | id in t.sessions && t.sessions[id].phase != Committed) == {}
  {
    forall f | f in t.registry ensures t.registry[f].owner != u {
      assert Holdings(t.registry)[f].owner in t.users;
    }
    forall id | id in t.sessions && t.sessions[id].phase != Committed ensures t.sessions[id].owner != u {
      assert Reservations(t.sessions)[id].owner in t.users;
    }
  }

  /** Deregistering leaves neither the account nor any debt of it. */
  lemma DeregisterConserves(t: Tables, u: UserId, clamp: bool)
    requires Conserved(t)
    ensures Conserved(Deregister(t, u, clamp))
    ensures Deregister(t, u, clamp) == Deregister(t, u, false)
    ensures u !in Deregister(t, u, clamp).users
  {
    PurgeConserves(t, u, clamp);
    if u in t.users {
      hide Conserved, Purge, DropUser;
      DropUserConserves(Purge(t, u, clamp), u);
    }
  }

  lemma DropUserConserves(t: Tables, u: UserId)
    requires Conserved(t) && u in t.users && OwnedBy(t, u) == {}
    ensures Conserved(DropUser(t, u)) && u !in DropUser(t, u).users
  {
    DropFilesOf(t, u);
    NoSessionsNoDebt(t, u);
    FilesMinus(t, u);
    hide Owed, Owes, Reservations, Holdings, FilesOf;
    DropUserKeeps(t.users[u := 0], Reservations(t.sessions), Holdings(t.registry - FilesOf(t, u)), u);
    assert t.users[u := 0] - {u} == t.users - {u};
  }

  lemma RegisterConserves(t: Tables, u: UserId)
    requires Conserved(t)
    ensures Conserved(Register(t, u))
  {
    if u !in t.users {
      AddUserKeeps(t.users, Reservations(t.sessions), Holdings(t.registry), u);
    }
  }

  /** Changing a session without changing what it holds, or a row's status, keeps the balance. */
  lemma TouchConserves(t: Tables, t': Tables)
    requires Conserved(t) && t'.users == t.users
    requires t'.sessions.Keys == t.sessions.Keys && t'.registry.Keys == t.registry.Keys
    requires forall up :: up in t.sessions ==>
               && t'.sessions[up].owner == t.sessions[up].owner
               && t'.sessions[up].reserved == t.sessions[up].reserved
               && (t'.sessions[up].phase == Committed <==> t.sessions[up].phase == Committed)
    requires forall f :: f in t.registry ==>
               t'.registry[f].owner == t.registry[f].owner && t'.registry[f].size == t.registry[f].size
    ensures Conserved(t')
  {
    assert Reservations(t'.sessions) == Reservations(t.sessions);
    assert Holdings(t'.registry) == Holdings(t.registry);
  }

  lemma ClaimConserves(t: Tables, k: Snap, now: Time)
    requires Conserved(t) && CanClaim(t, k)
    ensures Conserved(Claim(t, k, now))
  {
    hide Conserved;
    TouchConserves(t, Claim(t, k, now));
  }

  lemma LinkConserves(t: Tables, f: FileId, data: Bytes)
    requires Conserved(t)
    ensures Conserved(Link(t, f, data))
  {
    hide Conserved;
    TouchConserves(t, Link(t, f, data));
  }

  lemma ResetConserves(t: Tables, k: Snap, now: Time)
    requires Conserved(t)
    ensures Conserved(Reset(t, k, now))
  {
    hide Conserved;
    TouchConserves(t, Reset(t, k, now));
  }

  lemma DeleteConserves(t: Tables, u: UserId, f: FileId)
    requires Conserved(t)
    ensures Conserved(Delete(t, u, f).0)
  {
    DropStepConserves(t.(finals := t.finals - {f}), f, false);
  }

  lemma DropStepConserves(t: Tables, f: FileId, clamp: bool)
    requires Conserved(t)
    ensures f in t.registry ==> Conserved(DropFile(t, f, clamp)) && DropFile(t, f, clamp) == DropFile(t, f, false)
  {
    if f in t.registry {
      DropFileConserves(t, f, clamp);
    }
  }

  lemma PutConserves(sha: Bytes -> Digest, t: Tables, u: UserId, up: UploadId, index: int, data: Bytes, declared: Meta,
                     startedAt: Time, now: Time)
    requires Conserved(t)
    ensures Conserved(Put(sha, t, u, up, index, data, declared, startedAt, now).0)
  {
    hide Conserved, MetaOf, HexDigest, RowsOf, PartsOf;
    TouchConserves(t, Put(sha, t, u, up, index, data, declared, startedAt, now).0);
  }

  lemma HealConserves(t: Tables, up: UploadId)
    requires Conserved(t)
    ensures Conserved(Heal(t, up))
  {
    hide Conserved, Broken;
    TouchConserves(t, Heal(t, up));
  }

  lemma PublishConserves(t: Tables, f: FileId, data: Bytes)
    requires Conserved(t)
    ensures Conserved(Publish(t, f, data).0)
  {
    hide Conserved;
    TouchConserves(t, Publish(t, f, data).0);
  }

  lemma ReserveStepConserves(sha: Bytes -> Digest, t: Tables, u: UserId, f: FileId, data: Bytes, limit: int, now: Time)
    requires Conserved(t)
    ensures Conserved(Reserve(sha, t, u, f, data, limit, now).0)
  {
    var t' := Reserve(sha, t, u, f, data, limit, now).0;
    if u in t.users && f !in t.registry && f in t'.registry {
      ReserveConserves(t, u, f, t'.registry[f]);
    }
  }

  lemma ExpireConserves(t: Tables, now: Time)
    requires Conserved(t)
    ensures Conserved(Expire(t, now, true))
  {
    DropSessionsConserves(t, ExpiredAt(t, now), true);
  }

  lemma AccountResetConserves(t: Tables, u: UserId)
    requires Conserved(t)
    ensures var t' := RemoveUserFiles(t, u, true);
            Conserved(t') && (u in t'.users ==> t'.users[u] == 0)
  {
    hide Conserved;
    RemoveUserFilesConserves(t, u, true);
    PurgeConserves(t, u, true);
  }

  /** Committed sessions and registered files are as they were. */
  ghost predicate SparesCommitted(t: Tables, t': Tables) {
    && (forall up :: up in t.sessions && t.sessions[up].phase == Committed ==> up in t'.sessions && t'.sessions[up] == t.sessions[up])
    && (forall f :: f in t.registry ==> f in t'.registry && t'.registry[f] == t.registry[f])
  }

  lemma FinishSpares(t: Tables, c: Snap, size: nat, now: Time)
    ensures SparesCommitted(t, Finish(t, c, size, now).0)
  {
  }

  lemma ResetSpares(t: Tables, c: Snap, now: Time)
    ensures SparesCommitted(t, Reset(t, c, now))
  {
  }
}
