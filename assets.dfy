/** The asset ledger the handler burns from and issues into, reduced to the
    two operations the handler calls: `destroy_usable` and `issue`. Only usable
    balances are kept; the ledger keeps, per asset, a stored total issuance
    equal to the sum of that asset's balances. */
module Assets {
  import opened Primitives

  datatype Ledger = Ledger(accounts: map<AssetId, map<AccountId, Balance>>, issuance: map<AssetId, Balance>)

  /** The usable balances of one asset, by account. */
  function Holdings(l: Ledger, a: AssetId): map<AccountId, Balance> {
    if a in l.accounts then l.accounts[a] else map[]
  }

  /** The usable balance of `who` in asset `a` (zero when never credited). */
  function Usable(l: Ledger, a: AssetId, who: AccountId): Balance {
    var h := Holdings(l, a);
    if who in h then h[who] else 0
  }

  /** The stored total issuance of asset `a`. */
  function TotalIssuance(l: Ledger, a: AssetId): Balance {
    if a in l.issuance then l.issuance[a] else 0
  }

  /** The sum of the balances of a map. */
  ghost function Sum(m: map<AccountId, Balance>): nat
    decreases |m|
  {
    if m == map[] then 0
    else
      var k :| k in m;
      assert (m - {k}).Keys == m.Keys - {k};
      m[k] + Sum(m - {k})
  }

  lemma {:induction false} SumRemove(m: map<AccountId, Balance>, k: AccountId)
    requires k in m
    ensures Sum(m) == m[k] + Sum(m - {k})
    decreases |m|
  {
    var j :| j in m && Sum(m) == m[j] + Sum(m - {j});
    if j != k {
      var mj, mk := m - {j}, m - {k};
      assert mj.Keys == m.Keys - {j};
      assert mk.Keys == m.Keys - {k};
      SumRemove(mj, k);
      SumRemove(mk, j);
      assert mj - {k} == mk - {j};
    }
  }

  /** Setting one balance moves the sum by the difference. */
  lemma SumUpdate(m: map<AccountId, Balance>, k: AccountId, v: Balance)
    ensures Sum(m[k := v]) + (if k in m then m[k] else 0) == Sum(m) + v
  {
    var m' := m[k := v];
    SumRemove(m', k);
    if k in m {
      SumRemove(m, k);
      assert m' - {k} == m - {k};
    } else {
      assert m' - {k} == m;
    }
  }

  /** The stored issuance of every asset is the sum of its balances. */
  ghost predicate Consistent(l: Ledger) {
    forall a :: TotalIssuance(l, a) == Sum(Holdings(l, a))
  }

  /** `l'` differs from `l` at most in account `who` of asset `a`. */
  ghost predicate SameElsewhere(l: Ledger, l': Ledger, a: AssetId, who: AccountId) {
    && (forall b, w :: (b != a || w != who) ==> Usable(l', b, w) == Usable(l, b, w))
    && (forall b :: b != a ==> TotalIssuance(l', b) == TotalIssuance(l, b))
  }

  /** `l` and `l'` hold the same balances and the same issuance everywhere. */
  ghost predicate Equivalent(l: Ledger, l': Ledger) {
    && (forall b, w :: Usable(l', b, w) == Usable(l, b, w))
    && (forall b :: TotalIssuance(l', b) == TotalIssuance(l, b))
  }

  /** `destroy_usable`: burn `amount` from the usable balance of `who`,
      lowering the asset's issuance by the same amount, or fail without
      effect when the usable balance is too small. */
  function DestroyUsable(l: Ledger, a: AssetId, who: AccountId, amount: Balance): (r: Result<Ledger>)
    requires Consistent(l)
    ensures r.Ok? <==> amount <= Usable(l, a, who)
    ensures r.Err? ==> r.error == InsufficientBalance
    ensures r.Ok? ==> && Consistent(r.value)
                      && Usable(r.value, a, who) + amount == Usable(l, a, who)
                      && TotalIssuance(r.value, a) + amount == TotalIssuance(l, a)
                      && SameElsewhere(l, r.value, a, who)
  {
    var bal := Usable(l, a, who);
    if bal < amount then Err(InsufficientBalance)
    else
      var h := Holdings(l, a);
      SumUpdate(h, who, bal - amount);
      var l' := Ledger(l.accounts[a := h[who := bal - amount]], l.issuance[a := TotalIssuance(l, a) - amount]);
      assert forall b :: b != a ==> Holdings(l', b) == Holdings(l, b);
      Ok(l')
  }

  /** `issue`: mint `amount` into the usable balance of `to`, raising the
      asset's issuance by the same amount. */
  function Issue(l: Ledger, a: AssetId, to: AccountId, amount: Balance): (l': Ledger)
    requires Consistent(l)
    ensures Consistent(l')
    ensures Usable(l', a, to) == Usable(l, a, to) + amount
    ensures TotalIssuance(l', a) == TotalIssuance(l, a) + amount
    ensures SameElsewhere(l, l', a, to)
  {
    var bal := Usable(l, a, to);
    var h := Holdings(l, a);
    SumUpdate(h, to, bal + amount);
    var l' := Ledger(l.accounts[a := h[to := bal + amount]], l.issuance[a := TotalIssuance(l, a) + amount]);
    assert forall b :: b != a ==> Holdings(l', b) == Holdings(l, b);
    l'
  }

  /** Issuing what was just destroyed, to the same account, restores every
      balance and every issuance. */
  lemma IssueUndoesDestroy(l: Ledger, a: AssetId, who: AccountId, amount: Balance)
    requires Consistent(l)
    requires DestroyUsable(l, a, who, amount).Ok?
    ensures Equivalent(l, Issue(DestroyUsable(l, a, who, amount).value, a, who, amount))
  {
  }
}
