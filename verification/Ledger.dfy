/** Accounting kernel. The two kinds of row that hold a user's storage, upload
    reservations and registered files, are both tables of debts; the counter
    `users.storage_used` is balanced when it equals what the user owes in both. */
module Ledger {
  type UserId = string

  datatype Debt = Debt(owner: UserId, amount: nat)

  ghost function Part(x: Debt, u: UserId): nat {
    if x.owner == u then x.amount else 0
  }

  /** What user u owes over all rows of the table. */
  ghost function Owed<K(!new)>(d: map<K, Debt>, u: UserId): nat
    decreases |d|
  {
    if d == map[] then 0
    else
      var k :| k in d;
      Part(d[k], u) + Owed(d - {k}, u)
  }

  ghost predicate Owes<K(!new)>(d: map<K, Debt>, u: UserId) {
    exists k :: k in d && d[k].owner == u
  }

  ghost function Only<K(!new)>(d: map<K, Debt>, ks: set<K>): map<K, Debt> {
    map k | k in d && k in ks :: d[k]
  }

  /** SET storage_used = storage_used - n, through MAX(0, ...) where the statement has one. */
  function Less(x: int, n: nat, clamp: bool): int {
    if clamp && x < n then 0 else x - n
  }

  function Release(users: map<UserId, int>, u: UserId, n: nat, clamp: bool): map<UserId, int> {
    if u in users then users[u := Less(users[u], n, clamp)] else users
  }

  function Charge(users: map<UserId, int>, u: UserId, n: nat): map<UserId, int> {
    if u in users then users[u := users[u] + n] else users
  }

  /** Releasing every debt of d, in any order. */
  ghost function Pay<K(!new)>(users: map<UserId, int>, d: map<K, Debt>, clamp: bool): map<UserId, int> {
    map u | u in users :: if Owes(d, u) then Less(users[u], Owed(d, u), clamp) else users[u]
  }

  ghost predicate Balanced<A(!new), B(!new)>(users: map<UserId, int>, a: map<A, Debt>, b: map<B, Debt>) {
    && (forall u :: u in users ==> users[u] == Owed(a, u) + Owed(b, u))
    && (forall k :: k in a ==> a[k].owner in users)
    && (forall k :: k in b ==> b[k].owner in users)
  }

  // ---------- Sums over a table ----------

  lemma {:induction false} OwedRemove<K(!new)>(d: map<K, Debt>, k: K, u: UserId)
    requires k in d
    ensures Owed(d, u) == Part(d[k], u) + Owed(d - {k}, u)
    decreases |d|
  {
    var k' :| k' in d && Owed(d, u) == Part(d[k'], u) + Owed(d - {k'}, u);
    if k' != k {
      OwedRemove(d - {k'}, k, u);
      OwedRemove(d - {k}, k', u);
      assert d - {k'} - {k} == d - {k} - {k'};
    }
  }

  lemma OwedAdd<K(!new)>(d: map<K, Debt>, k: K, x: Debt, u: UserId)
    requires k !in d
    ensures Owed(d[k := x], u) == Owed(d, u) + Part(x, u)
  {
    OwedRemove(d[k := x], k, u);
    assert d[k := x] - {k} == d;
  }

  lemma OnlyLess<K(!new)>(d: map<K, Debt>, ks: set<K>, k: K)
    requires k in d
    ensures Only(d - {k}, ks) == Only(d, ks) - {k}
    ensures k in ks ==> d - {k} - ks == d - ks
    ensures k !in ks ==> d - {k} - ks == d - ks - {k} && Only(d, ks) - {k} == Only(d, ks)
  {
  }

  lemma {:induction false} OwedSplit<K(!new)>(d: map<K, Debt>, ks: set<K>, u: UserId)
    ensures Owed(d, u) == Owed(Only(d, ks), u) + Owed(d - ks, u)
    decreases |d|
  {
    if d != map[] {
      var k :| k in d;
      OwedRemove(d, k, u);
      OwedSplit(d - {k}, ks, u);
      OnlyLess(d, ks, k);
      if k in ks {
        OwedRemove(Only(d, ks), k, u);
      } else {
        OwedRemove(d - ks, k, u);
      }
    }
  }

  lemma {:induction false} OwedNone<K(!new)>(d: map<K, Debt>, u: UserId)
    requires !Owes(d, u)
    ensures Owed(d, u) == 0
    decreases |d|
  {
    if d != map[] {
      var k :| k in d;
      OwedRemove(d, k, u);
      assert d[k].owner != u;
      assert !Owes(d - {k}, u);
      OwedNone(d - {k}, u);
    }
  }

  // ---------- What each kind of statement does to the balance ----------

  lemma PayNothing<K(!new)>(users: map<UserId, int>, d: map<K, Debt>, clamp: bool)
    requires d == map[]
    ensures Pay(users, d, clamp) == users
  {
  }

  /** One more release, as a loop over rows makes it. */
  lemma PayOneMore<K(!new)>(users: map<UserId, int>, d: map<K, Debt>, k: K, x: Debt, clamp: bool)
    requires k !in d
    ensures Pay(users, d[k := x], clamp) == Release(Pay(users, d, clamp), x.owner, x.amount, clamp)
  {
    var d' := d[k := x];
    forall u | u in users ensures Pay(users, d', clamp)[u] == Release(Pay(users, d, clamp), x.owner, x.amount, clamp)[u] {
      OwedAdd(d, k, x, u);
      if u == x.owner {
        assert d'[k].owner == u;
        if !Owes(d, u) {
          OwedNone(d, u);
        }
      } else {
        if Owes(d, u) {
          var j :| j in d && d[j].owner == u;
          assert j in d' && d'[j].owner == u;
        }
        if Owes(d', u) {
          var j :| j in d' && d'[j].owner == u;
          assert j in d && d[j].owner == u;
        }
      }
    }
  }

  lemma BalancedSwap<A(!new), B(!new)>(users: map<UserId, int>, a: map<A, Debt>, b: map<B, Debt>)
    requires Balanced(users, a, b)
    ensures Balanced(users, b, a)
  {
  }

  /** Dropping rows and paying for them keeps the balance, and the clamp changes nothing. */
  lemma PayKeeps<A(!new), B(!new)>(users: map<UserId, int>, a: map<A, Debt>, b: map<B, Debt>, ks: set<A>, clamp: bool)
    requires Balanced(users, a, b)
    ensures Balanced(Pay(users, Only(a, ks), clamp), a - ks, b)
    ensures Pay(users, Only(a, ks), clamp) == Pay(users, Only(a, ks), false)
  {
    var users' := Pay(users, Only(a, ks), clamp);
    forall u | u in users
      ensures users'[u] == Owed(a - ks, u) + Owed(b, u)
      ensures users'[u] == Pay(users, Only(a, ks), false)[u]
    {
      OwedSplit(a, ks, u);
      if !Owes(Only(a, ks), u) {
        OwedNone(Only(a, ks), u);
      }
    }
  }

  lemma ReleaseKeeps<A(!new), B(!new)>(users: map<UserId, int>, a: map<A, Debt>, b: map<B, Debt>, k: A, clamp: bool)
    requires Balanced(users, a, b) && k in a
    ensures Balanced(Release(users, a[k].owner, a[k].amount, clamp), a - {k}, b)
    ensures Release(users, a[k].owner, a[k].amount, clamp) == Release(users, a[k].owner, a[k].amount, false)
  {
    PayKeeps(users, a, b, {k}, clamp);
    var none: map<A, Debt> := map[];
    assert Only(a, {k}) == none[k := a[k]];
    PayNothing(users, none, clamp);
    PayOneMore(users, none, k, a[k], clamp);
    PayNothing(users, none, false);
    PayOneMore(users, none, k, a[k], false);
  }

  lemma ChargeKeeps<A(!new), B(!new)>(users: map<UserId, int>, a: map<A, Debt>, b: map<B, Debt>, k: A, x: Debt)
    requires Balanced(users, a, b) && k !in a && x.owner in users
    ensures Balanced(Charge(users, x.owner, x.amount), a[k := x], b)
  {
    forall u | u in users ensures Owed(a[k := x], u) == Owed(a, u) + Part(x, u) {
      OwedAdd(a, k, x, u);
    }
  }

  /** A reservation that becomes a file row of the same owner and amount. */
  lemma MoveKeeps<A(!new), B(!new)>(users: map<UserId, int>, a: map<A, Debt>, b: map<B, Debt>, k: A, f: B)
    requires Balanced(users, a, b) && k in a && f !in b
    ensures Balanced(users, a - {k}, b[f := a[k]])
  {
    forall u | u in users ensures Owed(a - {k}, u) + Owed(b[f := a[k]], u) == Owed(a, u) + Owed(b, u) {
      OwedRemove(a, k, u);
      OwedAdd(b, f, a[k], u);
    }
  }

  lemma AddUserKeeps<A(!new), B(!new)>(users: map<UserId, int>, a: map<A, Debt>, b: map<B, Debt>, u: UserId)
    requires Balanced(users, a, b) && u !in users
    ensures Balanced(users[u := 0], a, b)
  {
    assert !Owes(a, u) && !Owes(b, u);
    OwedNone(a, u);
    OwedNone(b, u);
  }

  lemma DropUserKeeps<A(!new), B(!new)>(users: map<UserId, int>, a: map<A, Debt>, b: map<B, Debt>, u: UserId)
    requires Balanced(users, a, b) && !Owes(a, u) && !Owes(b, u)
    ensures Balanced(users - {u}, a, b)
  {
  }

  /** Paying everything that u owes in the first table leaves what u owes in the second. */
  lemma PayAllOf<A(!new), B(!new)>(users: map<UserId, int>, a: map<A, Debt>, b: map<B, Debt>, u: UserId, ks: set<A>, clamp: bool)
    requires Balanced(users, a, b) && u in users
    requires forall k :: k in a ==> (k in ks <==> a[k].owner == u)
    ensures Pay(users, Only(a, ks), clamp) == users[u := Owed(b, u)]
    ensures Balanced(users[u := Owed(b, u)], a - ks, b)
    ensures !Owes(b, u) ==> Owed(b, u) == 0
  {
    PayKeeps(users, a, b, ks, clamp);
    var users' := Pay(users, Only(a, ks), clamp);
    OwedNone(a - ks, u);
    assert users'[u] == Owed(b, u);
    forall v | v in users && v != u ensures users'[v] == users[v] {
      assert !Owes(Only(a, ks), v);
    }
    assert users' == users[u := Owed(b, u)];
    if !Owes(b, u) {
      OwedNone(b, u);
    }
  }
}
