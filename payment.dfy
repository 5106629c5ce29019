/**
 * A payment for a reservation (domain/payment/entity/Payment.java) and its
 * guarded transitions PENDING -> SUCCESS -> CANCELLED -> REFUNDED, PENDING -> FAILED.
 */
module Payments {
  import opened Common

  datatype PaymentStatus = PENDING | SUCCESS | FAILED | CANCELLED | REFUNDED

  datatype PaymentMethod = CARD | KAKAO_PAY | NAVER_PAY | TOSS | BANK_TRANSFER

  datatype PaymentRecord = PaymentRecord(
    id: nat,
    paymentNo: string,
    reservationId: nat,
    payMethod: PaymentMethod,
    payAmount: int,
    payStatus: PaymentStatus,
    pgTransactionId: Option<string>,
    paidAt: Option<int>,
    cancelledAt: Option<int>)

  /** The builder: PENDING for the given amount, with no PG id and no timestamps. */
  function NewPayment(id: nat, paymentNo: string, reservationId: nat, payMethod: PaymentMethod, payAmount: int): (p: PaymentRecord)
    ensures p.payStatus == PENDING && p.payAmount == payAmount
    ensures p.id == id && p.paymentNo == paymentNo && p.reservationId == reservationId && p.payMethod == payMethod
    ensures p.pgTransactionId.None? && p.paidAt.None? && p.cancelledAt.None?
  {
    PaymentRecord(id, paymentNo, reservationId, payMethod, payAmount, PENDING, None, None, None)
  }

  /** `success`: PENDING to SUCCESS, recording the PG transaction id and the time paid. */
  function PaymentSucceeded(p: PaymentRecord, pgTransactionId: string, now: int): (res: Result<PaymentRecord>)
    ensures res.Ok? <==> p.payStatus == PENDING
    ensures res.Err? ==> res.error == PAYMENT_CANNOT_COMPLETE
    ensures res.Ok? ==> res.value == p.(payStatus := SUCCESS, pgTransactionId := Some(pgTransactionId), paidAt := Some(now))
  {
    if p.payStatus != PENDING then Err(PAYMENT_CANNOT_COMPLETE)
    else Ok(p.(payStatus := SUCCESS, pgTransactionId := Some(pgTransactionId), paidAt := Some(now)))
  }

  /** `fail`: PENDING to FAILED, else PAYMENT_FAILED. */
  function PaymentFailed(p: PaymentRecord): (res: Result<PaymentRecord>)
    ensures res.Ok? <==> p.payStatus == PENDING
    ensures res.Err? ==> res.error == PAYMENT_FAILED
    ensures res.Ok? ==> res.value == p.(payStatus := FAILED)
  {
    if p.payStatus != PENDING then Err(PAYMENT_FAILED) else Ok(p.(payStatus := FAILED))
  }

  /** `cancel`: SUCCESS to CANCELLED, recording the time, else PAYMENT_CANNOT_CANCEL. */
  function PaymentCancelled(p: PaymentRecord, now: int): (res: Result<PaymentRecord>)
    ensures res.Ok? <==> p.payStatus == SUCCESS
    ensures res.Err? ==> res.error == PAYMENT_CANNOT_CANCEL
    ensures res.Ok? ==> res.value == p.(payStatus := CANCELLED, cancelledAt := Some(now))
  {
    if p.payStatus != SUCCESS then Err(PAYMENT_CANNOT_CANCEL)
    else Ok(p.(payStatus := CANCELLED, cancelledAt := Some(now)))
  }

  /** `refund`: CANCELLED to REFUNDED, else PAYMENT_CANNOT_REFUND. */
  function PaymentRefunded(p: PaymentRecord): (res: Result<PaymentRecord>)
    ensures res.Ok? <==> p.payStatus == CANCELLED
    ensures res.Err? ==> res.error == PAYMENT_CANNOT_REFUND
    ensures res.Ok? ==> res.value == p.(payStatus := REFUNDED)
  {
    if p.payStatus != CANCELLED then Err(PAYMENT_CANNOT_REFUND) else Ok(p.(payStatus := REFUNDED))
  }

  datatype PaymentCommand =
    | SuccessCmd(pgTransactionId: string, now: int)
    | FailCmd
    | CancelCmd(now: int)
    | RefundCmd

  function Step(p: PaymentRecord, c: PaymentCommand): Result<PaymentRecord>
  {
    match c
    case SuccessCmd(pg, now) => PaymentSucceeded(p, pg, now)
    case FailCmd => PaymentFailed(p)
    case CancelCmd(now) => PaymentCancelled(p, now)
    case RefundCmd => PaymentRefunded(p)
  }

  /** The payment lifecycle as a graph, independently of the methods. */
  predicate LifecycleEdge(from: PaymentStatus, to: PaymentStatus)
  {
    (from == PENDING && to in {SUCCESS, FAILED})
    || (from == SUCCESS && to == CANCELLED)
    || (from == CANCELLED && to == REFUNDED)
  }

  /** Every successful command follows an edge, and none changes the amount, method, number or reservation. */
  lemma StepFollowsLifecycle(p: PaymentRecord, c: PaymentCommand)
    ensures Step(p, c).Ok? ==> LifecycleEdge(p.payStatus, Step(p, c).value.payStatus)
    ensures Step(p, c).Ok? ==> var n := Step(p, c).value;
      n.payAmount == p.payAmount && n.payMethod == p.payMethod && n.paymentNo == p.paymentNo
      && n.reservationId == p.reservationId && n.id == p.id
  {
  }

  /** FAILED and REFUNDED are terminal: every command from them is refused. */
  lemma FailedAndRefundedAreTerminal(p: PaymentRecord, c: PaymentCommand)
    requires p.payStatus in {FAILED, REFUNDED}
    ensures Step(p, c).Err?
  {
  }

  /** A SUCCESS or later payment has its PG id and payment time; only a cancelled or refunded one has a cancel time. */
  predicate TimestampsConsistent(p: PaymentRecord)
  {
    (p.payStatus in {SUCCESS, CANCELLED, REFUNDED} <==> p.paidAt.Some?)
    && (p.paidAt.Some? <==> p.pgTransactionId.Some?)
    && (p.payStatus in {CANCELLED, REFUNDED} <==> p.cancelledAt.Some?)
  }

  lemma StepKeepsTimestampsConsistent(p: PaymentRecord, c: PaymentCommand)
    requires TimestampsConsistent(p)
    ensures Step(p, c).Ok? ==> TimestampsConsistent(Step(p, c).value)
  {
  }

  function OutcomeOf(res: Result<PaymentRecord>): Outcome
  {
    if res.Ok? then Pass else Fail(res.error)
  }

  function After(res: Result<PaymentRecord>, before: PaymentRecord): PaymentRecord
  {
    if res.Ok? then res.value else before
  }

  /** The JPA entity; `paymentNo` stands for the generated number and `now` for `LocalDateTime.now()`. */
  class Payment {
    var id: nat
    var paymentNo: string
    var reservationId: nat
    var payMethod: PaymentMethod
    var payAmount: int
    var payStatus: PaymentStatus
    var pgTransactionId: Option<string>
    var paidAt: Option<int>
    var cancelledAt: Option<int>

    function Record(): PaymentRecord
      reads this
    {
      PaymentRecord(id, paymentNo, reservationId, payMethod, payAmount, payStatus, pgTransactionId, paidAt, cancelledAt)
    }

    constructor (id: nat, paymentNo: string, reservationId: nat, payMethod: PaymentMethod, payAmount: int)
      ensures Record() == NewPayment(id, paymentNo, reservationId, payMethod, payAmount)
    {
      this.id := id;
      this.paymentNo := paymentNo;
      this.reservationId := reservationId;
      this.payMethod := payMethod;
      this.payAmount := payAmount;
      this.payStatus := PENDING;
      this.pgTransactionId := None;
      this.paidAt := None;
      this.cancelledAt := None;
    }

    method Success(pgTransactionId: string, now: int) returns (outcome: Outcome)
      modifies this
      ensures outcome == OutcomeOf(PaymentSucceeded(old(Record()), pgTransactionId, now))
      ensures Record() == After(PaymentSucceeded(old(Record()), pgTransactionId, now), old(Record()))
    {
      if payStatus != PENDING {
        return Outcome.Fail(PAYMENT_CANNOT_COMPLETE);
      }
      payStatus := SUCCESS;
      this.pgTransactionId := Some(pgTransactionId);
      paidAt := Some(now);
      outcome := Pass;
    }

    method Fail() returns (outcome: Outcome)
      modifies this
      ensures outcome == OutcomeOf(PaymentFailed(old(Record())))
      ensures Record() == After(PaymentFailed(old(Record())), old(Record()))
    {
      if payStatus != PENDING {
        return Outcome.Fail(PAYMENT_FAILED);
      }
      payStatus := FAILED;
      outcome := Pass;
    }

    method Cancel(now: int) returns (outcome: Outcome)
      modifies this
      ensures outcome == OutcomeOf(PaymentCancelled(old(Record()), now))
      ensures Record() == After(PaymentCancelled(old(Record()), now), old(Record()))
    {
      if payStatus != SUCCESS {
        return Outcome.Fail(PAYMENT_CANNOT_CANCEL);
      }
      payStatus := CANCELLED;
      cancelledAt := Some(now);
      outcome := Pass;
    }

    method Refund() returns (outcome: Outcome)
      modifies this
      ensures outcome == OutcomeOf(PaymentRefunded(old(Record())))
      ensures Record() == After(PaymentRefunded(old(Record())), old(Record()))
    {
      if payStatus != CANCELLED {
        return Outcome.Fail(PAYMENT_CANNOT_REFUND);
      }
      payStatus := REFUNDED;
      outcome := Pass;
    }
  }
}
