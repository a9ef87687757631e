// The registration permit and the time window both issuers must meet
// (packages/sdk/src/permit.ts). Seconds are Unix seconds, milliseconds are Date values.
module Permits {
  import opened Options

  // Hashes and addresses are the numbers their hex digits denote.
  type Hash = nat
  type Address = nat

  const CHAIN_ID: nat := 5042
  const SKEW_SECONDS := 5
  const MAX_WINDOW_SECONDS := 300

  datatype Permit = Permit(
    chainId: nat,
    controller: Address,
    labelHash: Hash,
    requester: Address,
    executor: Address,
    amount: nat,
    nonce: nat,
    permitId: Hash,
    issuedAt: int,
    validAfter: int,
    validUntil: int)

  datatype WindowFault =
    | ChainMismatch
    | NotValidYet
    | PermitExpired
    | BadOrdering
    | SkewTooLarge
    | WindowTooLong

  // assertPermitWindow: the first failing check, or none.
  function WindowFaultAt(p: Permit, nowSeconds: int): Option<WindowFault> {
    if p.chainId != CHAIN_ID then Some(ChainMismatch)
    else if nowSeconds < p.validAfter then Some(NotValidYet)
    else if nowSeconds > p.validUntil then Some(PermitExpired)
    else if p.validAfter > p.issuedAt || p.issuedAt > p.validUntil then Some(BadOrdering)
    else if p.issuedAt - p.validAfter > SKEW_SECONDS then Some(SkewTooLarge)
    else if p.validUntil - p.validAfter > MAX_WINDOW_SECONDS then Some(WindowTooLong)
    else None
  }

  predicate MeetsWindow(p: Permit, nowSeconds: int) {
    WindowFaultAt(p, nowSeconds).None?
  }

  // A permit meets the window from its start to its end, when it was issued inside them, at most 5 seconds after
  // the start, and the whole is at most 300 seconds long.
  lemma WindowIsExact(p: Permit, nowSeconds: int)
    ensures MeetsWindow(p, nowSeconds) <==>
            && p.chainId == 5042 && p.validAfter <= nowSeconds <= p.validUntil
            && p.validAfter <= p.issuedAt <= p.validUntil
            && p.issuedAt - p.validAfter <= 5 && p.validUntil - p.validAfter <= 300
  {
  }

  // The fault that is reported is the first in the order of the checks.
  lemma FaultsAreOrdered(p: Permit, nowSeconds: int)
    ensures var f := WindowFaultAt(p, nowSeconds);
            && (f == Some(ChainMismatch) <==> p.chainId != 5042)
            && (f == Some(NotValidYet) <==> p.chainId == 5042 && nowSeconds < p.validAfter)
            && (f == Some(PermitExpired) <==>
                p.chainId == 5042 && p.validAfter <= nowSeconds && p.validUntil < nowSeconds)
            && (f == Some(BadOrdering) <==>
                p.chainId == 5042 && p.validAfter <= nowSeconds <= p.validUntil
                && !(p.validAfter <= p.issuedAt <= p.validUntil))
            && (f == Some(SkewTooLarge) <==>
                p.chainId == 5042 && p.validAfter <= nowSeconds <= p.validUntil
                && p.validAfter + 5 < p.issuedAt <= p.validUntil)
  {
  }

  // Math.floor(milliseconds / 1000); division by a positive number floors, also below zero.
  function Seconds(milliseconds: int): int {
    milliseconds / 1000
  }
}
