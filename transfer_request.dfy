/** The body of a transfer call: two account ids and an amount. */
module Requests {

  /** The datatype constructor stores the three fields exactly as given. */
  datatype TransferRequest = TransferRequest(fromAccountId: string, toAccountId: string, amount: real)
  {
    /** The bean-validation constraints: both ids non-empty, amount strictly
        above zero (the bound is exclusive). Dafny strings are never null.
        Nothing relates the two ids to each other. */
    predicate ConstraintsHold()
    {
      |fromAccountId| > 0 && |toAccountId| > 0 && amount > 0.0
    }

    /** The same transfer in the opposite direction. */
    function Reversed(): TransferRequest
    {
      TransferRequest(toAccountId, fromAccountId, amount)
    }
  }

  /** An amount of zero is rejected, whatever the ids. */
  lemma ZeroAmountRejected(fromId: string, toId: string)
    ensures !TransferRequest(fromId, toId, 0.0).ConstraintsHold()
  {
  }

  /** A request is accepted exactly when both ids are non-empty and the
      amount is positive; in particular a transfer from an account to itself
      passes validation. */
  lemma SelfTransferPassesValidation(id: string, amount: real)
    requires |id| > 0 && amount > 0.0
    ensures TransferRequest(id, id, amount).ConstraintsHold()
  {
  }
}
