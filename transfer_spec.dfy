/** The sequential meaning of one transfer, on values: which outcome is chosen,
    how the balances move and which notifications go out. The service's
    `Transfer` method is proved to do exactly this. */
module Transfers {
  import opened Requests
  import opened Messages

  datatype TransferStatus = Success | FromAccMissing | ToAccMissing | LimitExceeded

  /** What a notification says, before it is rendered as text. */
  datatype Message =
    | Debited(amount: real, counterparty: string)
    | Credited(amount: real, counterparty: string)

  /** One call to the notification collaborator: the recipient account's id and the message. */
  datatype Notification = Notification(recipient: string, message: Message)

  /** The state a transfer reads and writes: every stored account's balance and
      the notifications sent so far, oldest first. */
  datatype Ledger = Ledger(balances: map<string, real>, notices: seq<Notification>)

  datatype Outcome = Outcome(ledger: Ledger, status: TransferStatus)

  /** The text handed to the collaborator; `render` is the amount's decimal text. */
  function Text(m: Message, render: real -> string): string
  {
    match m
    case Debited(amount, to) => FromMsg(render(amount), to)
    case Credited(amount, from) => ToMsg(render(amount), from)
  }

  /** The outcome, decided in this order: source missing, destination
      missing, source balance strictly below the amount, success. */
  function StatusOf(balances: map<string, real>, req: TransferRequest): (s: TransferStatus)
    ensures s == FromAccMissing <==> req.fromAccountId !in balances
    ensures s == ToAccMissing <==> req.fromAccountId in balances && req.toAccountId !in balances
    ensures s == LimitExceeded <==>
      req.fromAccountId in balances && req.toAccountId in balances && balances[req.fromAccountId] < req.amount
    ensures s == Success <==>
      req.fromAccountId in balances && req.toAccountId in balances && balances[req.fromAccountId] >= req.amount
  {
    if req.fromAccountId !in balances then FromAccMissing
    else if req.toAccountId !in balances then ToAccMissing
    else if balances[req.fromAccountId] < req.amount then LimitExceeded
    else Success
  }

  /** One transfer. Both balances are read before either is written, as the
      source does; on success the debit notice goes out before the credit one. */
  function Apply(l: Ledger, req: TransferRequest): (o: Outcome)
    ensures o.status == StatusOf(l.balances, req)
    ensures o.ledger.balances.Keys == l.balances.Keys
    ensures o.status != Success ==> o.ledger == l
    ensures o.status == Success ==>
      && |o.ledger.notices| == |l.notices| + 2
      && o.ledger.notices[..|l.notices|] == l.notices
      && o.ledger.balances[req.toAccountId] == l.balances[req.toAccountId] + req.amount
      && (req.fromAccountId != req.toAccountId ==>
            o.ledger.balances[req.fromAccountId] == l.balances[req.fromAccountId] - req.amount)
  {
    var status := StatusOf(l.balances, req);
    if status != Success then Outcome(l, status)
    else
      var f, t := req.fromAccountId, req.toAccountId;
      var fromBalance, toBalance := l.balances[f], l.balances[t];
      var balances := l.balances[f := fromBalance - req.amount][t := toBalance + req.amount];
      var notices := l.notices + [Notification(f, Debited(req.amount, t)), Notification(t, Credited(req.amount, f))];
      Outcome(Ledger(balances, notices), Success)
  }

  /** A missing source ends the transfer before anything else happens. */
  lemma FromMissing(l: Ledger, req: TransferRequest)
    requires req.fromAccountId !in l.balances
    ensures Apply(l, req) == Outcome(l, FromAccMissing)
  {
  }

  /** With the source present, a missing destination ends the transfer with
      nothing changed. */
  lemma ToMissing(l: Ledger, req: TransferRequest)
    requires req.fromAccountId in l.balances && req.toAccountId !in l.balances
    ensures Apply(l, req) == Outcome(l, ToAccMissing)
  {
  }

  /** With both accounts present, the limit is exceeded exactly when the source
      balance is strictly below the amount (a balance equal to the amount
      succeeds), and an exceeded limit changes nothing. */
  lemma LimitExceededIff(l: Ledger, req: TransferRequest)
    requires req.fromAccountId in l.balances && req.toAccountId in l.balances
    ensures Apply(l, req).status == LimitExceeded <==> l.balances[req.fromAccountId] < req.amount
    ensures Apply(l, req).status == Success <==> l.balances[req.fromAccountId] >= req.amount
    ensures Apply(l, req).status == LimitExceeded ==> Apply(l, req).ledger == l
  {
  }

  /** Between two distinct accounts, success moves exactly `amount` from the
      source to the destination, keeps their sum, and touches no other account. */
  lemma SuccessMovesAmount(l: Ledger, req: TransferRequest)
    requires req.fromAccountId != req.toAccountId
    requires Apply(l, req).status == Success
    ensures var b, b' := l.balances, Apply(l, req).ledger.balances;
      var f, t := req.fromAccountId, req.toAccountId;
      && b'.Keys == b.Keys
      && b'[f] == b[f] - req.amount
      && b'[t] == b[t] + req.amount
      && b'[f] + b'[t] == b[f] + b[t]
      && (forall id :: id in b && id != f && id != t ==> b'[id] == b[id])
  {
  }

  /** No overdraft: for a positive amount and a non-negative source, the source
      is never negative afterwards, and if it went down then it held at least
      the amount beforehand. */
  lemma NoOverdraft(l: Ledger, req: TransferRequest)
    requires req.amount > 0.0
    requires req.fromAccountId in l.balances && l.balances[req.fromAccountId] >= 0.0
    ensures Apply(l, req).ledger.balances[req.fromAccountId] >= 0.0
    ensures Apply(l, req).ledger.balances[req.fromAccountId] < l.balances[req.fromAccountId]
      ==> l.balances[req.fromAccountId] >= req.amount
  {
  }

  /** Exactly two notifications on success, debit to the source first and then
      credit to the destination; none on any other outcome. */
  lemma NotificationsOnlyOnSuccess(l: Ledger, req: TransferRequest)
    ensures var o := Apply(l, req);
      && o.ledger.notices[..|l.notices|] == l.notices
      && (o.status == Success <==> |o.ledger.notices| == |l.notices| + 2)
      && (o.status != Success <==> o.ledger.notices == l.notices)
      && (o.status == Success ==>
            o.ledger.notices[|l.notices|..] ==
              [Notification(req.fromAccountId, Debited(req.amount, req.toAccountId)),
               Notification(req.toAccountId, Credited(req.amount, req.fromAccountId))])
  {
  }

  /** On success the two notices just sent render, through `Text`, to the
      debit text naming the destination, addressed to the source holder, and
      then the credit text naming the source, addressed to the destination
      holder. */
  lemma SuccessNoticeTexts(l: Ledger, req: TransferRequest, render: real -> string)
    requires Apply(l, req).status == Success
    ensures var ns, k := Apply(l, req).ledger.notices, |l.notices|;
      && |ns| == k + 2
      && ns[k].recipient == req.fromAccountId
      && Text(ns[k].message, render) == FromMsg(render(req.amount), req.toAccountId)
      && ns[k + 1].recipient == req.toAccountId
      && Text(ns[k + 1].message, render) == ToMsg(render(req.amount), req.fromAccountId)
  {
  }

  /** A failed transfer can be retried without effect: it fails the same way
      and still changes nothing. */
  lemma FailureIsIdempotent(l: Ledger, req: TransferRequest)
    requires Apply(l, req).status != Success
    ensures Apply(Apply(l, req).ledger, req) == Apply(l, req)
  {
  }

  /** A successful transfer followed by the same amount in the opposite
      direction succeeds too and restores every balance. */
  lemma {:induction false} ReverseRestores(l: Ledger, req: TransferRequest)
    requires req.fromAccountId != req.toAccountId && req.amount >= 0.0
    requires req.toAccountId in l.balances && l.balances[req.toAccountId] >= 0.0
    requires Apply(l, req).status == Success
    ensures Apply(Apply(l, req).ledger, req.Reversed()).status == Success
    ensures Apply(Apply(l, req).ledger, req.Reversed()).ledger.balances == l.balances
  {
    var m := Apply(l, req).ledger;
    SuccessMovesAmount(l, req);
    SuccessMovesAmount(m, req.Reversed());
    var b'' := Apply(m, req.Reversed()).ledger.balances;
    assert b''.Keys == l.balances.Keys;
    forall id | id in l.balances
      ensures b''[id] == l.balances[id]
    {
    }
  }

  /** Why a transfer from an account to itself must not succeed: both balances
      are read before either is written, so the credit overwrites the debit
      and the account gains the amount out of nothing. */
  lemma SelfTransferCreatesMoney(l: Ledger, id: string, amount: real)
    requires id in l.balances && l.balances[id] >= amount
    ensures Apply(l, TransferRequest(id, id, amount)).status == Success
    ensures Apply(l, TransferRequest(id, id, amount)).ledger.balances[id] == l.balances[id] + amount
  {
  }
}
