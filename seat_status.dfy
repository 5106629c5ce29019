/**
 * The seven statuses a seat of one screening can be in, and the guards the
 * transitions consult (domain/screening/entity/SeatStatus.java).
 */
module SeatStatuses {

  datatype SeatStatus = AVAILABLE | HOLD | PAYMENT_PENDING | RESERVED | CANCELLED | BLOCKED | DISABLED
  {
    /** Only an available seat may be held. */
    predicate CanHold()
    {
      this == AVAILABLE
    }

    /** Only a held seat may move to payment. */
    predicate CanPay()
    {
      this == HOLD
    }

    /** Only a reserved seat may be cancelled. */
    predicate CanCancel()
    {
      this == RESERVED
    }

    /** What a customer may pick on the seat map. */
    predicate IsSelectable()
    {
      this == AVAILABLE
    }

    /** Somebody is holding, paying for or owns the seat. */
    predicate IsOccupied()
    {
      this == HOLD || this == PAYMENT_PENDING || this == RESERVED
    }
  }

  /** The number of guards among canHold, canPay and canCancel that admit `s`. */
  function GuardCount(s: SeatStatus): nat
  {
    (if s.CanHold() then 1 else 0) + (if s.CanPay() then 1 else 0) + (if s.CanCancel() then 1 else 0)
  }

  /** No status passes two of the three transition guards. */
  lemma GuardsAreExclusive(s: SeatStatus)
    ensures GuardCount(s) <= 1
    ensures GuardCount(s) == 1 <==> s in {AVAILABLE, HOLD, RESERVED}
  {
  }

  /** Each guard admits exactly one status. */
  lemma EachGuardAdmitsOneStatus(s: SeatStatus)
    ensures s.CanHold() <==> s == AVAILABLE
    ensures s.CanPay() <==> s == HOLD
    ensures s.CanCancel() <==> s == RESERVED
  {
  }

  /** Selectable is the same test as holdable, and a selectable seat is never occupied. */
  lemma SelectableMeansHoldable(s: SeatStatus)
    ensures s.IsSelectable() <==> s.CanHold()
    ensures s.IsSelectable() ==> !s.IsOccupied()
  {
  }

  /** The occupied statuses are HOLD, PAYMENT_PENDING and RESERVED; the other four are free or out of service. */
  lemma OccupiedStatuses(s: SeatStatus)
    ensures s.IsOccupied() <==> s in {HOLD, PAYMENT_PENDING, RESERVED}
    ensures !s.IsOccupied() <==> s in {AVAILABLE, CANCELLED, BLOCKED, DISABLED}
  {
  }
}
