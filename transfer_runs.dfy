/** Transfers applied one after another: how many of a run of equal requests
    succeed, and where the balances end up. */
module TransferRuns {
  import opened Requests
  import opened Transfers

  /** The state after a sequence of transfers, and each transfer's outcome in order. */
  datatype Run = Run(ledger: Ledger, statuses: seq<TransferStatus>)

  function RunAll(l: Ledger, reqs: seq<TransferRequest>): (r: Run)
    ensures |r.statuses| == |reqs|
    ensures r.ledger.balances.Keys == l.balances.Keys
    decreases |reqs|
  {
    if reqs == [] then Run(l, [])
    else
      var first := Apply(l, reqs[0]);
      var rest := RunAll(first.ledger, reqs[1..]);
      Run(rest.ledger, [first.status] + rest.statuses)
  }

  /** `k` copies of the same request. */
  function Repeat(req: TransferRequest, k: nat): (reqs: seq<TransferRequest>)
    ensures |reqs| == k
  {
    if k == 0 then [] else [req] + Repeat(req, k - 1)
  }

  /** How many outcomes are `Success`. */
  function Successes(statuses: seq<TransferStatus>): (n: nat)
    ensures n <= |statuses|
  {
    if statuses == [] then 0
    else (if statuses[0] == Success then 1 else 0) + Successes(statuses[1..])
  }

  function Min(x: int, y: int): int
  {
    if x <= y then x else y
  }

  /** Whole multiples of `a` that fit in `b`, for a positive `a`. */
  lemma FloorStep(b: real, a: real)
    requires a > 0.0
    ensures ((b - a) / a).Floor == (b / a).Floor - 1
  {
    var q, r := b / a, (b - a) / a;
    assert q * a == b && r * a == b - a;
    assert (r - (q - 1.0)) * a == 0.0;
    ZeroProduct(r - (q - 1.0), a);
  }

  lemma ZeroProduct(x: real, a: real)
    requires a > 0.0 && x * a == 0.0
    ensures x == 0.0
  {
  }

  lemma FloorBelow(b: real, a: real)
    requires a > 0.0 && 0.0 <= b < a
    ensures (b / a).Floor == 0
  {
    var q := b / a;
    assert q * a == b;
    if q >= 1.0 {
      assert false;
    }
    if q < 0.0 {
      assert false;
    }
  }

  lemma OneMore(b: real, a: real, n: nat)
    ensures (b - a) - n as real * a == b - (n + 1) as real * a
    ensures (b + a) + n as real * a == b + (n + 1) as real * a
  {
  }

  lemma FloorNonNegative(b: real, a: real)
    requires a > 0.0 && b >= 0.0
    ensures (b / a).Floor >= 0
  {
    assert b / a >= 0.0;
  }

  /** What a run `r` of `k` equal transfers from a source holding `b >= 0`
      amounts to: min(k, floor(b/a)) successes, and the ledger that follows. */
  ghost predicate RepeatOutcome(l: Ledger, req: TransferRequest, k: nat, r: Run)
    requires req.fromAccountId in l.balances && req.toAccountId in l.balances && req.amount > 0.0
  {
    && Successes(r.statuses) == Min(k, (l.balances[req.fromAccountId] / req.amount).Floor)
    && MovedTimes(l, req, Successes(r.statuses), r.ledger)
  }

  /** `l'` is `l` after `n` successful transfers of `req`: the source lost and
      the destination gained `n` times the amount, no other balance changed,
      and two notifications were sent for each. */
  ghost predicate MovedTimes(l: Ledger, req: TransferRequest, n: nat, l': Ledger)
    requires req.fromAccountId in l.balances && req.toAccountId in l.balances
  {
    var f, t, a := req.fromAccountId, req.toAccountId, req.amount;
    && l'.balances.Keys == l.balances.Keys
    && l'.balances[f] == l.balances[f] - n as real * a
    && l'.balances[t] == l.balances[t] + n as real * a
    && (forall id :: id in l.balances && id != f && id != t ==> l'.balances[id] == l.balances[id])
    && |l'.notices| == |l.notices| + 2 * n
  }

  /** Running `[req] + rest` is running `req`, then `rest` from where it left off. */
  lemma RunFirst(l: Ledger, req: TransferRequest, k: nat)
    requires k > 0
    ensures var first := Apply(l, req);
      var rest := RunAll(first.ledger, Repeat(req, k - 1));
      var r := RunAll(l, Repeat(req, k));
      && r.ledger == rest.ledger
      && Successes(r.statuses) == (if first.status == Success then 1 else 0) + Successes(rest.statuses)
  {
    var reqs := Repeat(req, k);
    assert reqs[0] == req && reqs[1..] == Repeat(req, k - 1);
    var first := Apply(l, req);
    var rest := RunAll(first.ledger, Repeat(req, k - 1));
    var r := RunAll(l, reqs);
    assert r.statuses == [first.status] + rest.statuses;
    assert r.statuses[1..] == rest.statuses;
  }

  /** One more success on top of `n`: the moves add up. */
  lemma {:induction false} MovedOnceMore(l: Ledger, req: TransferRequest, n: nat, m: Ledger, l': Ledger)
    requires req.fromAccountId != req.toAccountId
    requires req.fromAccountId in l.balances && req.toAccountId in l.balances
    requires Apply(l, req).status == Success && m == Apply(l, req).ledger
    requires req.fromAccountId in m.balances && req.toAccountId in m.balances
    requires MovedTimes(m, req, n, l')
    ensures MovedTimes(l, req, n + 1, l')
  {
    var f, t, a := req.fromAccountId, req.toAccountId, req.amount;
    SuccessMovesAmount(l, req);
    NotificationsOnlyOnSuccess(l, req);
    OneMore(l.balances[f], a, n);
    OneMore(l.balances[t], a, n);
  }

  /** Induction step when the source can still pay. */
  lemma {:induction false} StepPays(l: Ledger, req: TransferRequest, k: nat, m: Ledger)
    requires req.fromAccountId != req.toAccountId
    requires req.fromAccountId in l.balances && req.toAccountId in l.balances
    requires req.amount > 0.0 && l.balances[req.fromAccountId] >= req.amount
    requires k > 0
    requires m == Apply(l, req).ledger
    requires req.fromAccountId in m.balances && req.toAccountId in m.balances
    requires RepeatOutcome(m, req, k - 1, RunAll(m, Repeat(req, k - 1)))
    ensures RepeatOutcome(l, req, k, RunAll(l, Repeat(req, k)))
  {
    var b, a := l.balances[req.fromAccountId], req.amount;
    var rest := RunAll(m, Repeat(req, k - 1));
    var r := RunAll(l, Repeat(req, k));
    var n' := Successes(rest.statuses);
    LimitExceededIff(l, req);
    RunFirst(l, req, k);
    assert m.balances[req.fromAccountId] == b - a by { SuccessMovesAmount(l, req); }
    FloorStep(b, a);
    MovedOnceMore(l, req, n', m, rest.ledger);
  }

  /** Induction step when the source can no longer pay: nothing changes. */
  lemma {:induction false} StepRefused(l: Ledger, req: TransferRequest, k: nat)
    requires req.fromAccountId in l.balances && req.toAccountId in l.balances
    requires req.amount > 0.0 && 0.0 <= l.balances[req.fromAccountId] < req.amount
    requires k > 0
    requires RepeatOutcome(l, req, k - 1, RunAll(l, Repeat(req, k - 1)))
    ensures RepeatOutcome(l, req, k, RunAll(l, Repeat(req, k)))
  {
    LimitExceededIff(l, req);
    RunFirst(l, req, k);
    FloorBelow(l.balances[req.fromAccountId], req.amount);
  }

  /** `k` equal transfers of a positive amount `a` between two distinct
      accounts, from a source holding `b >= 0`: exactly min(k, floor(b/a)) of
      them succeed, and the balances and notifications follow. */
  lemma {:induction false} RepeatedTransfers(l: Ledger, req: TransferRequest, k: nat)
    requires req.fromAccountId != req.toAccountId
    requires req.fromAccountId in l.balances && req.toAccountId in l.balances
    requires req.amount > 0.0 && l.balances[req.fromAccountId] >= 0.0
    ensures RepeatOutcome(l, req, k, RunAll(l, Repeat(req, k)))
    decreases k
  {
    var b := l.balances[req.fromAccountId];
    if k == 0 {
      FloorNonNegative(b, req.amount);
    } else if b >= req.amount {
      var m := Apply(l, req).ledger;
      SuccessMovesAmount(l, req);
      LimitExceededIff(l, req);
      RepeatedTransfers(m, req, k - 1);
      StepPays(l, req, k, m);
    } else {
      RepeatedTransfers(l, req, k - 1);
      StepRefused(l, req, k);
    }
  }

  /** One transfer of `a` from `f` to each destination in `tos`, in order. */
  function Fanout(f: string, tos: seq<string>, a: real): (reqs: seq<TransferRequest>)
    ensures |reqs| == |tos|
    ensures forall i :: 0 <= i < |tos| ==> reqs[i] == TransferRequest(f, tos[i], a)
  {
    if tos == [] then [] else [TransferRequest(f, tos[0], a)] + Fanout(f, tos[1..], a)
  }

  /** Outcomes that succeed exactly on the first `n` positions count `n` successes. */
  lemma {:induction false} SuccessesOfPrefix(statuses: seq<TransferStatus>, n: nat)
    requires n <= |statuses|
    requires forall i :: 0 <= i < |statuses| ==> (statuses[i] == Success <==> i < n)
    ensures Successes(statuses) == n
    decreases |statuses|
  {
    if statuses != [] {
      var rest := statuses[1..];
      var n' := if n == 0 then 0 else n - 1;
      assert forall i :: 0 <= i < |rest| ==> rest[i] == statuses[i + 1];
      SuccessesOfPrefix(rest, n');
    }
  }

  /** `n` payments of `a`, added up one at a time. */
  function Times(n: nat, a: real): real
  {
    if n == 0 then 0.0 else Times(n - 1, a) + a
  }

  /** `Times` is the product. */
  lemma {:induction false} TimesIsProduct(n: nat, a: real)
    ensures Times(n, a) == n as real * a
  {
    if n > 0 {
      TimesIsProduct(n - 1, a);
    }
  }

  /** What a run `r` of transfers of `a` out of `f` into `tos` amounts to,
      with `n` the number of them the source can pay for: the first `n`
      succeed and no later one does; the source pays `a` for each success,
      and each destination receives `a` for each of those first requests
      addressed to it. */
  ghost predicate DrainOutcome(l: Ledger, f: string, tos: seq<string>, a: real, n: nat, r: Run)
    requires f in l.balances && n <= |tos| && |r.statuses| == |tos|
    requires r.ledger.balances.Keys == l.balances.Keys
  {
    && (forall i :: 0 <= i < |tos| ==> (r.statuses[i] == Success <==> i < n))
    && r.ledger.balances[f] == l.balances[f] - Times(n, a)
    && (forall d :: d in l.balances && d != f ==>
          r.ledger.balances[d] == l.balances[d] + Times(multiset(tos[..n])[d], a))
  }

  /** The first of a fan-out of transfers, then the rest from where it left off. */
  lemma FanoutFirst(l: Ledger, f: string, tos: seq<string>, a: real)
    requires tos != []
    ensures var first := Apply(l, TransferRequest(f, tos[0], a));
      var rest := RunAll(first.ledger, Fanout(f, tos[1..], a));
      var r := RunAll(l, Fanout(f, tos, a));
      && r.ledger == rest.ledger
      && (forall i :: 1 <= i < |tos| ==> r.statuses[i] == rest.statuses[i - 1])
      && r.statuses[0] == first.status
  {
    var reqs := Fanout(f, tos, a);
    assert reqs[1..] == Fanout(f, tos[1..], a);
  }

  /** The destinations' part of one paid step, on plain maps: `mb` is `lb`
      after paying `a` from `f` to `tos[0]`, and `rb` is `mb` after `n'`
      further payments to the next destinations. */
  lemma {:induction false} PaidStepDestinations(lb: map<string, real>, mb: map<string, real>, rb: map<string, real>,
                                                f: string, tos: seq<string>, a: real, n': nat)
    requires tos != [] && f in lb && tos[0] in lb && tos[0] != f && n' <= |tos| - 1
    requires mb == lb[f := lb[f] - a][tos[0] := lb[tos[0]] + a]
    requires rb.Keys == mb.Keys
    requires forall d :: d in mb && d != f ==> rb[d] == mb[d] + Times(multiset(tos[1..][..n'])[d], a)
    ensures forall d :: d in lb && d != f ==> rb[d] == lb[d] + Times(multiset(tos[..n' + 1])[d], a)
  {
    forall d | d in lb && d != f
      ensures rb[d] == lb[d] + Times(multiset(tos[..n' + 1])[d], a)
    {
      CountFirst(tos, n', d);
    }
  }

  /** Occurrences of `d` among the first `n + 1` destinations. */
  lemma CountFirst(tos: seq<string>, n: nat, d: string)
    requires n < |tos|
    ensures multiset(tos[..n + 1])[d] == multiset(tos[1..][..n])[d] + (if tos[0] == d then 1 else 0)
  {
    assert tos[..n + 1] == [tos[0]] + tos[1..][..n];
  }

  /** A fan-out whose first transfer is paid: that transfer moves `a` from
      `f` to `tos[0]`, and the rest of the run starts from there. */
  lemma FirstPays(l: Ledger, f: string, tos: seq<string>, a: real)
    requires f in l.balances && tos != [] && tos[0] in l.balances && tos[0] != f && l.balances[f] >= a
    ensures var m := Apply(l, TransferRequest(f, tos[0], a)).ledger;
      var rest := RunAll(m, Fanout(f, tos[1..], a));
      && m.balances == l.balances[f := l.balances[f] - a][tos[0] := l.balances[tos[0]] + a]
      && m.balances.Keys == l.balances.Keys
      && RunAll(l, Fanout(f, tos, a)) == Run(rest.ledger, [Success] + rest.statuses)
  {
    LimitExceededIff(l, TransferRequest(f, tos[0], a));
    FanoutFirst(l, f, tos, a);
  }

  /** Induction step of `DrainSteps` when the source can still pay: the first
      transfer succeeds into `m`, then `rest` follows from `m`. */
  lemma {:induction false} DrainPays(l: Ledger, f: string, tos: seq<string>, a: real, n': nat, m: Ledger, rest: Run)
    requires f in l.balances && tos != [] && tos[0] in l.balances && tos[0] != f && n' <= |tos| - 1
    requires m.balances == l.balances[f := l.balances[f] - a][tos[0] := l.balances[tos[0]] + a]
    requires |rest.statuses| == |tos| - 1 && rest.ledger.balances.Keys == m.balances.Keys
    requires DrainOutcome(m, f, tos[1..], a, n', rest)
    ensures DrainOutcome(l, f, tos, a, n' + 1, Run(rest.ledger, [Success] + rest.statuses))
  {
    PaidStepDestinations(l.balances, m.balances, rest.ledger.balances, f, tos, a, n');
  }

  /** Induction step of `DrainSteps` when the source can no longer pay. */
  lemma {:induction false} DrainRefused(l: Ledger, f: string, tos: seq<string>, a: real)
    requires f in l.balances && a > 0.0 && l.balances[f] < a
    requires tos != [] && tos[0] in l.balances
    requires DrainOutcome(l, f, tos[1..], a, 0, RunAll(l, Fanout(f, tos[1..], a)))
    ensures DrainOutcome(l, f, tos, a, 0, RunAll(l, Fanout(f, tos, a)))
  {
    LimitExceededIff(l, TransferRequest(f, tos[0], a));
    FanoutFirst(l, f, tos, a);
    assert tos[..0] == [] && tos[1..][..0] == [];
  }

  /** Transfers of `a > 0` out of one source holding `b >= 0` into any
      destinations other than the source, one after another: exactly the first
      min(k, floor(b/a)) succeed, and the balances follow, with each payment
      added up one at a time (`DrainOutcome`). */
  lemma {:induction false} DrainSteps(l: Ledger, f: string, tos: seq<string>, a: real)
    requires f in l.balances && l.balances[f] >= 0.0 && a > 0.0
    requires forall i :: 0 <= i < |tos| ==> tos[i] in l.balances && tos[i] != f
    ensures var n := Min(|tos|, (l.balances[f] / a).Floor);
      && 0 <= n
      && DrainOutcome(l, f, tos, a, n, RunAll(l, Fanout(f, tos, a)))
    decreases |tos|, 1
  {
    var b := l.balances[f];
    FloorNonNegative(b, a);
    if tos == [] {
      assert tos[..Min(|tos|, (b / a).Floor)] == [];
    } else if b >= a {
      DrainStepsPays(l, f, tos, a);
    } else {
      FloorBelow(b, a);
      DrainSteps(l, f, tos[1..], a);
      DrainRefused(l, f, tos, a);
    }
  }

  /** `DrainSteps` when the source can pay the first transfer. */
  lemma {:induction false} DrainStepsPays(l: Ledger, f: string, tos: seq<string>, a: real)
    requires f in l.balances && a > 0.0 && l.balances[f] >= a
    requires tos != [] && forall i :: 0 <= i < |tos| ==> tos[i] in l.balances && tos[i] != f
    ensures var n := Min(|tos|, (l.balances[f] / a).Floor);
      && 1 <= n
      && DrainOutcome(l, f, tos, a, n, RunAll(l, Fanout(f, tos, a)))
    decreases |tos|, 0
  {
    var b := l.balances[f];
    var m := Apply(l, TransferRequest(f, tos[0], a)).ledger;
    var rest := RunAll(m, Fanout(f, tos[1..], a));
    FirstPays(l, f, tos, a);
    assert forall i :: 0 <= i < |tos[1..]| ==> tos[1..][i] in m.balances && tos[1..][i] != f;
    DrainSteps(m, f, tos[1..], a);
    var n' := Min(|tos[1..]|, (m.balances[f] / a).Floor);
    assert Min(|tos|, (b / a).Floor) == n' + 1 by {
      FloorStep(b, a);
    }
    DrainPays(l, f, tos, a, n', m, rest);
  }

  /** What a run `r` of transfers of `a` out of `f` into `tos` amounts to,
      with `n` the number of them the source can pay for: the first `n`
      succeed and no later one does; the source ends at `b - n*a`, and every
      other account gains `c*a`, where `c` counts the first `n` requests
      addressed to it. */
  ghost predicate Drained(l: Ledger, f: string, tos: seq<string>, a: real, n: nat, r: Run)
    requires f in l.balances && n <= |tos| && |r.statuses| == |tos|
    requires r.ledger.balances.Keys == l.balances.Keys
  {
    && (forall i :: 0 <= i < |tos| ==> (r.statuses[i] == Success <==> i < n))
    && r.ledger.balances[f] == l.balances[f] - n as real * a
    && (forall d :: d in l.balances && d != f ==>
          r.ledger.balances[d] == l.balances[d] + multiset(tos[..n])[d] as real * a)
  }

  /** Transfers of `a > 0` out of one source holding `b >= 0` into any
      destinations other than the source, one after another, are `Drained`
      with n = min(k, floor(b/a)). */
  lemma DrainSource(l: Ledger, f: string, tos: seq<string>, a: real)
    requires f in l.balances && l.balances[f] >= 0.0 && a > 0.0
    requires forall i :: 0 <= i < |tos| ==> tos[i] in l.balances && tos[i] != f
    ensures var n := Min(|tos|, (l.balances[f] / a).Floor);
      && 0 <= n
      && Drained(l, f, tos, a, n, RunAll(l, Fanout(f, tos, a)))
  {
    var n := Min(|tos|, (l.balances[f] / a).Floor);
    DrainSteps(l, f, tos, a);
    DrainTotals(l, f, tos, a, n, RunAll(l, Fanout(f, tos, a)));
  }

  /** A `DrainOutcome`, whose payments are added up one at a time, is
      `Drained`: the sums are the products. */
  lemma DrainTotals(l: Ledger, f: string, tos: seq<string>, a: real, n: nat, r: Run)
    requires f in l.balances && n <= |tos| && |r.statuses| == |tos|
    requires r.ledger.balances.Keys == l.balances.Keys
    requires DrainOutcome(l, f, tos, a, n, r)
    ensures Drained(l, f, tos, a, n, r)
  {
    assert r.ledger.balances[f] == l.balances[f] - n as real * a by {
      TimesIsProduct(n, a);
    }
    ScaledCounts(l.balances, r.ledger.balances, f, multiset(tos[..n]), a);
  }

  /** Credits added up one at a time are the counts times the amount. */
  lemma ScaledCounts(before: map<string, real>, after: map<string, real>, f: string, counts: multiset<string>, a: real)
    requires after.Keys == before.Keys
    requires forall d :: d in before && d != f ==> after[d] == before[d] + Times(counts[d], a)
    ensures forall d :: d in before && d != f ==> after[d] == before[d] + counts[d] as real * a
  {
    forall d | d in before && d != f
      ensures after[d] == before[d] + counts[d] as real * a
    {
      TimesIsProduct(counts[d], a);
    }
  }

  /** Hence the number of successes in such a run is min(k, floor(b/a)). */
  lemma DrainSuccesses(l: Ledger, f: string, tos: seq<string>, a: real)
    requires f in l.balances && l.balances[f] >= 0.0 && a > 0.0
    requires forall i :: 0 <= i < |tos| ==> tos[i] in l.balances && tos[i] != f
    ensures Successes(RunAll(l, Fanout(f, tos, a)).statuses) == Min(|tos|, (l.balances[f] / a).Floor)
  {
    DrainSteps(l, f, tos, a);
    SuccessesOfPrefix(RunAll(l, Fanout(f, tos, a)).statuses, Min(|tos|, (l.balances[f] / a).Floor));
  }

  /** Among distinct destinations, the first `n` hold `tos[i]` once if `i < n`
      and not at all otherwise. */
  lemma {:induction false} CountDistinct(tos: seq<string>, n: nat, i: nat)
    requires n <= |tos| && i < |tos|
    requires forall j, k :: 0 <= j < k < |tos| ==> tos[j] != tos[k]
    ensures multiset(tos[..n])[tos[i]] == if i < n then 1 else 0
  {
    if n > 0 {
      CountDistinct(tos, n - 1, i);
      assert tos[..n] == tos[..n - 1] + [tos[n - 1]];
      assert tos[n - 1] == tos[i] <==> i == n - 1;
    }
  }

  /** Five transfers of 1 from an account holding 10 into five distinct empty
      accounts: all succeed; each destination ends at 1 and the source at 5. */
  lemma FiveTransfersOfOneIntoFive(l: Ledger, f: string, tos: seq<string>)
    requires |tos| == 5 && f !in tos
    requires forall i, j :: 0 <= i < j < |tos| ==> tos[i] != tos[j]
    requires f in l.balances && l.balances[f] == 10.0
    requires forall i :: 0 <= i < 5 ==> tos[i] in l.balances && l.balances[tos[i]] == 0.0
    ensures var r := RunAll(l, Fanout(f, tos, 1.0));
      && Successes(r.statuses) == 5
      && r.ledger.balances[f] == 5.0
      && (forall i :: 0 <= i < 5 ==> r.ledger.balances[tos[i]] == 1.0)
  {
    var r := RunAll(l, Fanout(f, tos, 1.0));
    assert Min(|tos|, (l.balances[f] / 1.0).Floor) == 5;
    assert Successes(r.statuses) == 5 by {
      DrainSuccesses(l, f, tos, 1.0);
    }
    DrainSource(l, f, tos, 1.0);
    forall i | 0 <= i < 5
      ensures r.ledger.balances[tos[i]] == 1.0
    {
      CountDistinct(tos, 5, i);
    }
  }

  /** Five transfers of 5 from an account holding 10 into five distinct empty
      accounts: two succeed and three find the limit exceeded; the source ends
      at 0, two destinations at 5 and the other three at 0. */
  lemma FiveTransfersOfFiveIntoFive(l: Ledger, f: string, tos: seq<string>)
    requires |tos| == 5 && f !in tos
    requires forall i, j :: 0 <= i < j < |tos| ==> tos[i] != tos[j]
    requires f in l.balances && l.balances[f] == 10.0
    requires forall i :: 0 <= i < 5 ==> tos[i] in l.balances && l.balances[tos[i]] == 0.0
    ensures var r := RunAll(l, Fanout(f, tos, 5.0));
      && Successes(r.statuses) == 2
      && r.ledger.balances[f] == 0.0
      && (forall i :: 0 <= i < 2 ==> r.ledger.balances[tos[i]] == 5.0)
      && (forall i :: 2 <= i < 5 ==> r.ledger.balances[tos[i]] == 0.0)
  {
    var r := RunAll(l, Fanout(f, tos, 5.0));
    assert Min(|tos|, (l.balances[f] / 5.0).Floor) == 2;
    assert Successes(r.statuses) == 2 by {
      DrainSuccesses(l, f, tos, 5.0);
    }
    DrainSource(l, f, tos, 5.0);
    forall i | 0 <= i < 5
      ensures r.ledger.balances[tos[i]] == if i < 2 then 5.0 else 0.0
    {
      CountDistinct(tos, 2, i);
    }
  }

  /** Ten transfers of 1 from an account holding 10 into an empty one: all
      ten succeed, leaving 0 and 10. */
  lemma TenTransfersOfOne(l: Ledger, fromId: string, toId: string)
    requires fromId != toId && l.balances == map[fromId := 10.0, toId := 0.0]
    ensures var r := RunAll(l, Repeat(TransferRequest(fromId, toId, 1.0), 10));
      && Successes(r.statuses) == 10
      && r.ledger.balances == map[fromId := 0.0, toId := 10.0]
  {
    var r := RunAll(l, Repeat(TransferRequest(fromId, toId, 1.0), 10));
    RepeatedTransfers(l, TransferRequest(fromId, toId, 1.0), 10);
    assert r.ledger.balances.Keys == {fromId, toId};
  }

  /** Ten transfers of 5 from an account holding 10: exactly two succeed,
      leaving 0 and 10; the other eight find the limit exceeded. */
  lemma TenTransfersOfFive(l: Ledger, fromId: string, toId: string)
    requires fromId != toId && l.balances == map[fromId := 10.0, toId := 0.0]
    ensures var r := RunAll(l, Repeat(TransferRequest(fromId, toId, 5.0), 10));
      && Successes(r.statuses) == 2
      && r.ledger.balances == map[fromId := 0.0, toId := 10.0]
  {
    var r := RunAll(l, Repeat(TransferRequest(fromId, toId, 5.0), 10));
    RepeatedTransfers(l, TransferRequest(fromId, toId, 5.0), 10);
    assert r.ledger.balances.Keys == {fromId, toId};
  }

  /** The same transfer of 1 made twice from 10 into 0 leaves 8 and 2. */
  lemma TransferTwice(l: Ledger, fromId: string, toId: string)
    requires fromId != toId && l.balances == map[fromId := 10.0, toId := 0.0]
    ensures var r := RunAll(l, Repeat(TransferRequest(fromId, toId, 1.0), 2));
      r.ledger.balances == map[fromId := 8.0, toId := 2.0]
  {
    var r := RunAll(l, Repeat(TransferRequest(fromId, toId, 1.0), 2));
    RepeatedTransfers(l, TransferRequest(fromId, toId, 1.0), 2);
    assert r.ledger.balances.Keys == {fromId, toId};
  }
}
