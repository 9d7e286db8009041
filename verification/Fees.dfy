/** The fee schedule and the ledger legs of each kind of money movement, all amounts in kobo. */
module Fees {
  import opened Ledger
  import Bigint

  const NOMBA_INBOUND_FEE_RATE_BPS := 100
  const NOMBA_INBOUND_FEE_MIN := 1000
  const NOMBA_INBOUND_FEE_MAX := 15000
  const PLATFORM_INBOUND_FEE := 1000
  const NOMBA_OUTBOUND_FEE := 2000
  const PLATFORM_OUTBOUND_FEE := 3000
  const OUTBOUND_FEE := NOMBA_OUTBOUND_FEE + PLATFORM_OUTBOUND_FEE

  function NombaInboundFeeFor(intended: int): (fee: int)
    ensures NOMBA_INBOUND_FEE_MIN <= fee <= NOMBA_INBOUND_FEE_MAX
    ensures fee > NOMBA_INBOUND_FEE_MIN ==> 100 * fee <= intended
    ensures fee < NOMBA_INBOUND_FEE_MAX ==> intended < 100 * (fee + 1)
  {
    var raw := Bigint.Div(intended * NOMBA_INBOUND_FEE_RATE_BPS, 10_000);
    if raw < NOMBA_INBOUND_FEE_MIN then NOMBA_INBOUND_FEE_MIN
    else if raw > NOMBA_INBOUND_FEE_MAX then NOMBA_INBOUND_FEE_MAX
    else raw
  }

  function InboundFeeFor(intended: int): int {
    NombaInboundFeeFor(intended) + PLATFORM_INBOUND_FEE
  }

  /** A funded contribution: the pot gets the intended amount, the platform its cut, and the provider's
      cut is recognised as a self-cancelling pair. */
  function InboundFeeLegs(potId: nat, intended: int): seq<EntryInput> {
    var nombaFee := NombaInboundFeeFor(intended);
    [EntryInput(PlatformFloat, Debit, intended + PLATFORM_INBOUND_FEE),
     EntryInput(Pot(potId), Credit, intended),
     EntryInput(PlatformRevenue, Credit, PLATFORM_INBOUND_FEE),
     EntryInput(NombaFeeExpense, Debit, nombaFee),
     EntryInput(NombaClearing, Credit, nombaFee)]
  }

  /** An outbound transfer drawn on `source`: its balance pays the recipient and both fees. */
  function DrawdownLegs(source: Account, recipientAmount: int): seq<EntryInput> {
    [EntryInput(source, Debit, recipientAmount + OUTBOUND_FEE),
     EntryInput(PlatformFloat, Credit, recipientAmount + NOMBA_OUTBOUND_FEE),
     EntryInput(PlatformRevenue, Credit, PLATFORM_OUTBOUND_FEE),
     EntryInput(NombaFeeExpense, Debit, NOMBA_OUTBOUND_FEE),
     EntryInput(NombaClearing, Credit, NOMBA_OUTBOUND_FEE)]
  }

  function OutboundFeeLegs(potId: nat, recipientAmount: int): seq<EntryInput> {
    DrawdownLegs(Pot(potId), recipientAmount)
  }

  function OverpaymentRefundLegs(refundAmount: int): seq<EntryInput> {
    DrawdownLegs(Suspense, refundAmount)
  }

  function ExpiryRefundLegs(refundAmount: int): seq<EntryInput> {
    DrawdownLegs(Suspense, refundAmount)
  }
}
