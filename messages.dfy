/** The texts sent to the two account holders of a successful transfer. */
module Messages {

  const Prefix: string := "Transferred "
  const DebitMiddle: string := " from your account to "
  const CreditMiddle: string := " into your account from "

  /** `fromMsg`: the text for the debited holder. `amountText` is the amount's
      decimal rendering, `toId` the counterparty's id. */
  function FromMsg(amountText: string, toId: string): (m: string)
    ensures |m| == |Prefix| + |amountText| + |DebitMiddle| + |toId|
    ensures m[..|Prefix|] == Prefix
    ensures m[|m| - |toId|..] == toId
  {
    Prefix + amountText + DebitMiddle + toId
  }

  /** `toMsg`: the text for the credited holder, naming the source account. */
  function ToMsg(amountText: string, fromId: string): (m: string)
    ensures |m| == |Prefix| + |amountText| + |CreditMiddle| + |fromId|
    ensures m[..|Prefix|] == Prefix
    ensures m[|m| - |fromId|..] == fromId
  {
    Prefix + amountText + CreditMiddle + fromId
  }

  /** A debit text and a credit text for the same amount never coincide:
      right after the amount, one says "from" and the other "into". */
  lemma {:induction false} DebitAndCreditDiffer(amountText: string, x: string, y: string)
    ensures FromMsg(amountText, x) != ToMsg(amountText, y)
  {
    var i := |Prefix| + |amountText| + 1;
    assert FromMsg(amountText, x)[i] == DebitMiddle[1] == 'f';
    assert ToMsg(amountText, y)[i] == CreditMiddle[1] == 'i';
  }

  /** The debit text determines its counterparty: given the amount text,
      the id can be read back from the message. */
  lemma {:induction false} FromMsgDeterminesCounterparty(amountText: string, x: string, y: string)
    requires FromMsg(amountText, x) == FromMsg(amountText, y)
    ensures x == y
  {
    var n := |Prefix| + |amountText| + |DebitMiddle|;
    assert FromMsg(amountText, x)[n..] == x;
    assert FromMsg(amountText, y)[n..] == y;
  }

  /** The credit text determines its counterparty in the same way. */
  lemma {:induction false} ToMsgDeterminesCounterparty(amountText: string, x: string, y: string)
    requires ToMsg(amountText, x) == ToMsg(amountText, y)
    ensures x == y
  {
    var n := |Prefix| + |amountText| + |CreditMiddle|;
    assert ToMsg(amountText, x)[n..] == x;
    assert ToMsg(amountText, y)[n..] == y;
  }
}
