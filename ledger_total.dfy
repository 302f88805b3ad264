/** The sum of all balances, and conservation of that sum by transfers. */
module LedgerTotal {
  import opened Requests
  import opened Transfers

  /** The sum of every balance in the store. */
  ghost function Total(balances: map<string, real>): real
    decreases |balances|
  {
    if balances == map[] then 0.0
    else
      var id :| id in balances;
      balances[id] + Total(balances - {id})
  }

  /** Any account can be taken out first: the sum does not depend on which
      account the definition happens to pick. */
  lemma {:induction false} TotalWithout(balances: map<string, real>, id: string)
    requires id in balances
    ensures Total(balances) == balances[id] + Total(balances - {id})
    decreases |balances|
  {
    var picked :| picked in balances && Total(balances) == balances[picked] + Total(balances - {picked});
    if picked != id {
      var rest := balances - {picked};
      assert |rest| < |balances| by { assert rest.Keys < balances.Keys; }
      TotalWithout(rest, id);
      var both := rest - {id};
      assert both == (balances - {id}) - {picked};
      assert |balances - {id}| < |balances| by { assert (balances - {id}).Keys < balances.Keys; }
      TotalWithout(balances - {id}, picked);
    }
  }

  /** Overwriting one existing balance changes the sum by the difference. */
  lemma {:induction false} TotalUpdate(balances: map<string, real>, id: string, v: real)
    requires id in balances
    ensures Total(balances[id := v]) == Total(balances) - balances[id] + v
  {
    var updated := balances[id := v];
    TotalWithout(balances, id);
    TotalWithout(updated, id);
    assert updated - {id} == balances - {id};
  }

  /** Conservation: a transfer between two distinct accounts, whatever its
      outcome, leaves the sum of all balances unchanged. */
  lemma {:induction false} TransferConservesTotal(l: Ledger, req: TransferRequest)
    requires req.fromAccountId != req.toAccountId
    ensures Total(Apply(l, req).ledger.balances) == Total(l.balances)
  {
    if Apply(l, req).status == Success {
      var f, t, a := req.fromAccountId, req.toAccountId, req.amount;
      var once := l.balances[f := l.balances[f] - a];
      TotalUpdate(l.balances, f, l.balances[f] - a);
      TotalUpdate(once, t, l.balances[t] + a);
    }
  }
}
