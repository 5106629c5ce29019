/**
 * A booking and its line items (domain/reservation/entity/Reservation.java):
 * the running seat count and amount kept by `addSeat`, and the guarded
 * status transitions PENDING -> PAYMENT_PENDING -> CONFIRMED -> CANCELLED -> REFUNDED.
 */
module Reservations {
  import opened Common

  datatype ReservationStatus = PENDING | PAYMENT_PENDING | CONFIRMED | CANCELLED | REFUNDED

  /**
   * A `ReservationSeat`: the screening seat it books, identified by its unique
   * key (screening, seat), with the price snapshot taken at booking.
   */
  datatype ReservationLine = ReservationLine(screeningId: nat, seatId: nat, price: int)

  datatype ReservationRecord = ReservationRecord(
    id: nat,
    reservationNo: string,
    memberId: nat,
    screeningId: nat,
    status: ReservationStatus,
    totalSeats: int,
    totalAmount: int,
    holdToken: Option<string>,
    lines: seq<ReservationLine>)

  /** The sum of the line prices, added from the first line to the last. */
  function SumPrices(lines: seq<ReservationLine>): int
  {
    if lines == [] then 0 else SumPrices(lines[..|lines| - 1]) + lines[|lines| - 1].price
  }

  /** Adding a line adds exactly its price to the sum. */
  lemma SumPricesAppend(lines: seq<ReservationLine>, line: ReservationLine)
    ensures SumPrices(lines + [line]) == SumPrices(lines) + line.price
  {
    assert (lines + [line])[..|lines|] == lines;
  }

  /** Lines whose prices are non-negative sum to a non-negative amount. */
  lemma {:induction false} SumPricesNonNegative(lines: seq<ReservationLine>)
    requires forall i :: 0 <= i < |lines| ==> lines[i].price >= 0
    ensures SumPrices(lines) >= 0
    decreases |lines|
  {
    if lines != [] {
      SumPricesNonNegative(lines[..|lines| - 1]);
    }
  }

  /** The stored totals describe the line items. */
  predicate TotalsConsistent(r: ReservationRecord)
  {
    r.totalSeats == |r.lines| && r.totalAmount == SumPrices(r.lines)
  }

  /** The builder: PENDING, no lines, both totals zero. */
  function NewReservation(id: nat, reservationNo: string, memberId: nat, screeningId: nat, holdToken: Option<string>): (r: ReservationRecord)
    ensures r.status == PENDING && r.lines == [] && r.totalSeats == 0 && r.totalAmount == 0
    ensures r.id == id && r.reservationNo == reservationNo && r.memberId == memberId
    ensures r.screeningId == screeningId && r.holdToken == holdToken
    ensures TotalsConsistent(r)
  {
    ReservationRecord(id, reservationNo, memberId, screeningId, PENDING, 0, 0, holdToken, [])
  }

  /** `addSeat`: append the line and recompute both totals from the whole list. */
  function AddLine(r: ReservationRecord, line: ReservationLine): (n: ReservationRecord)
    ensures n.lines == r.lines + [line]
    ensures n.(lines := r.lines, totalSeats := r.totalSeats, totalAmount := r.totalAmount) == r
  {
    var lines := r.lines + [line];
    r.(lines := lines, totalSeats := |lines|, totalAmount := SumPrices(lines))
  }

  /** After `addSeat` the totals are right whatever they were before, and a
    * consistent reservation grows by one seat and by exactly the line's price. */
  lemma AddLineKeepsTotals(r: ReservationRecord, line: ReservationLine)
    ensures TotalsConsistent(AddLine(r, line))
    ensures TotalsConsistent(r) ==>
      AddLine(r, line).totalSeats == r.totalSeats + 1 && AddLine(r, line).totalAmount == r.totalAmount + line.price
  {
    SumPricesAppend(r.lines, line);
  }

  /** `startPayment`: PENDING to PAYMENT_PENDING, else RESERVATION_CANNOT_START_PAYMENT. */
  function StartReservationPayment(r: ReservationRecord): (res: Result<ReservationRecord>)
    ensures res.Ok? <==> r.status == PENDING
    ensures res.Err? ==> res.error == RESERVATION_CANNOT_START_PAYMENT
    ensures res.Ok? ==> res.value == r.(status := PAYMENT_PENDING)
  {
    if r.status != PENDING then Err(RESERVATION_CANNOT_START_PAYMENT) else Ok(r.(status := PAYMENT_PENDING))
  }

  /** `confirm`: PAYMENT_PENDING to CONFIRMED, dropping the hold token, else RESERVATION_CANNOT_CONFIRM. */
  function ConfirmReservation(r: ReservationRecord): (res: Result<ReservationRecord>)
    ensures res.Ok? <==> r.status == PAYMENT_PENDING
    ensures res.Err? ==> res.error == RESERVATION_CANNOT_CONFIRM
    ensures res.Ok? ==> res.value == r.(status := CONFIRMED, holdToken := None)
  {
    if r.status != PAYMENT_PENDING then Err(RESERVATION_CANNOT_CONFIRM)
    else Ok(r.(status := CONFIRMED, holdToken := None))
  }

  /** `cancel`: CONFIRMED to CANCELLED, else RESERVATION_CANNOT_CANCEL. */
  function CancelReservation(r: ReservationRecord): (res: Result<ReservationRecord>)
    ensures res.Ok? <==> r.status == CONFIRMED
    ensures res.Err? ==> res.error == RESERVATION_CANNOT_CANCEL
    ensures res.Ok? ==> res.value == r.(status := CANCELLED)
  {
    if r.status != CONFIRMED then Err(RESERVATION_CANNOT_CANCEL) else Ok(r.(status := CANCELLED))
  }

  /** `refund`: CANCELLED to REFUNDED, else RESERVATION_CANNOT_REFUND. */
  function RefundReservation(r: ReservationRecord): (res: Result<ReservationRecord>)
    ensures res.Ok? <==> r.status == CANCELLED
    ensures res.Err? ==> res.error == RESERVATION_CANNOT_REFUND
    ensures res.Ok? ==> res.value == r.(status := REFUNDED)
  {
    if r.status != CANCELLED then Err(RESERVATION_CANNOT_REFUND) else Ok(r.(status := REFUNDED))
  }

  /** `paymentFailed`: PAYMENT_PENDING back to PENDING; from any other status nothing happens. */
  function ReservationPaymentFailed(r: ReservationRecord): (n: ReservationRecord)
    ensures r.status == PAYMENT_PENDING ==> n == r.(status := PENDING)
    ensures r.status != PAYMENT_PENDING ==> n == r
  {
    if r.status != PAYMENT_PENDING then r else r.(status := PENDING)
  }

  datatype ReservationCommand =
    | AddSeatCmd(line: ReservationLine)
    | StartPaymentCmd
    | ConfirmCmd
    | CancelCmd
    | RefundCmd
    | PaymentFailedCmd

  function Step(r: ReservationRecord, c: ReservationCommand): Result<ReservationRecord>
  {
    match c
    case AddSeatCmd(line) => Ok(AddLine(r, line))
    case StartPaymentCmd => StartReservationPayment(r)
    case ConfirmCmd => ConfirmReservation(r)
    case CancelCmd => CancelReservation(r)
    case RefundCmd => RefundReservation(r)
    case PaymentFailedCmd => Ok(ReservationPaymentFailed(r))
  }

  /** The reservation lifecycle as a graph, independently of the methods. */
  predicate LifecycleEdge(from: ReservationStatus, to: ReservationStatus)
  {
    (from == PENDING && to == PAYMENT_PENDING)
    || (from == PAYMENT_PENDING && to in {CONFIRMED, PENDING})
    || (from == CONFIRMED && to == CANCELLED)
    || (from == CANCELLED && to == REFUNDED)
  }

  /** Every command fails, keeps the status, or follows an edge; none changes the
    * identity, owner or screening, and only `addSeat` touches the lines. */
  lemma StepFollowsLifecycle(r: ReservationRecord, c: ReservationCommand)
    ensures Step(r, c).Ok? ==> Step(r, c).value.status == r.status || LifecycleEdge(r.status, Step(r, c).value.status)
    ensures Step(r, c).Ok? ==> var n := Step(r, c).value;
      n.id == r.id && n.reservationNo == r.reservationNo && n.memberId == r.memberId && n.screeningId == r.screeningId
    ensures Step(r, c).Ok? && !c.AddSeatCmd? ==> Step(r, c).value.lines == r.lines
  {
  }

  /** Every command keeps the totals consistent. */
  lemma StepKeepsTotals(r: ReservationRecord, c: ReservationCommand)
    requires TotalsConsistent(r)
    ensures Step(r, c).Ok? ==> TotalsConsistent(Step(r, c).value)
  {
    if c.AddSeatCmd? {
      AddLineKeepsTotals(r, c.line);
    }
  }

  /** Only `addSeat` can change a REFUNDED reservation: no status transition leaves it. */
  lemma RefundedIsTerminal(r: ReservationRecord, c: ReservationCommand)
    requires r.status == REFUNDED
    ensures Step(r, c).Ok? ==> Step(r, c).value.status == REFUNDED
  {
  }

  /** The pure transitions above, with `Ok`/`Err` turned into a completed or thrown call. */
  function OutcomeOf(res: Result<ReservationRecord>): Outcome
  {
    if res.Ok? then Pass else Fail(res.error)
  }

  function After(res: Result<ReservationRecord>, before: ReservationRecord): ReservationRecord
  {
    if res.Ok? then res.value else before
  }

  /** The JPA entity; `id` and `reservationNo` stand for the generated key and number. */
  class Reservation {
    var id: nat
    var reservationNo: string
    var memberId: nat
    var screeningId: nat
    var status: ReservationStatus
    var totalSeats: int
    var totalAmount: int
    var holdToken: Option<string>
    var reservationSeats: seq<ReservationLine>

    function Record(): ReservationRecord
      reads this
    {
      ReservationRecord(id, reservationNo, memberId, screeningId, status, totalSeats, totalAmount, holdToken, reservationSeats)
    }

    constructor (id: nat, reservationNo: string, memberId: nat, screeningId: nat, holdToken: Option<string>)
      ensures Record() == NewReservation(id, reservationNo, memberId, screeningId, holdToken)
    {
      this.id := id;
      this.reservationNo := reservationNo;
      this.memberId := memberId;
      this.screeningId := screeningId;
      this.holdToken := holdToken;
      this.status := PENDING;
      this.totalSeats := 0;
      this.totalAmount := 0;
      this.reservationSeats := [];
    }

    method AddSeat(line: ReservationLine)
      modifies this
      ensures Record() == AddLine(old(Record()), line)
    {
      reservationSeats := reservationSeats + [line];
      totalSeats := |reservationSeats|;
      RecalculateTotalAmount();
    }

    /** Sums the line prices in a loop, as the stream `sum` does. */
    method RecalculateTotalAmount()
      modifies this
      ensures totalAmount == SumPrices(reservationSeats)
      ensures Record().(totalAmount := old(totalAmount)) == old(Record())
    {
      var seats := reservationSeats;
      var sum := 0;
      var i := 0;
      while i < |seats|
        invariant 0 <= i <= |seats|
        invariant sum == SumPrices(seats[..i])
        invariant unchanged(this)
      {
        SumPricesAppend(seats[..i], seats[i]);
        assert seats[..i + 1] == seats[..i] + [seats[i]];
        sum := sum + seats[i].price;
        i := i + 1;
      }
      assert seats[..i] == seats;
      totalAmount := sum;
    }

    method StartPayment() returns (outcome: Outcome)
      modifies this
      ensures outcome == OutcomeOf(StartReservationPayment(old(Record())))
      ensures Record() == After(StartReservationPayment(old(Record())), old(Record()))
    {
      if status != PENDING {
        return Fail(RESERVATION_CANNOT_START_PAYMENT);
      }
      status := PAYMENT_PENDING;
      outcome := Pass;
    }

    method Confirm() returns (outcome: Outcome)
      modifies this
      ensures outcome == OutcomeOf(ConfirmReservation(old(Record())))
      ensures Record() == After(ConfirmReservation(old(Record())), old(Record()))
    {
      if status != PAYMENT_PENDING {
        return Fail(RESERVATION_CANNOT_CONFIRM);
      }
      status := CONFIRMED;
      holdToken := None;
      outcome := Pass;
    }

    method Cancel() returns (outcome: Outcome)
      modifies this
      ensures outcome == OutcomeOf(CancelReservation(old(Record())))
      ensures Record() == After(CancelReservation(old(Record())), old(Record()))
    {
      if status != CONFIRMED {
        return Fail(RESERVATION_CANNOT_CANCEL);
      }
      status := CANCELLED;
      outcome := Pass;
    }

    method Refund() returns (outcome: Outcome)
      modifies this
      ensures outcome == OutcomeOf(RefundReservation(old(Record())))
      ensures Record() == After(RefundReservation(old(Record())), old(Record()))
    {
      if status != CANCELLED {
        return Fail(RESERVATION_CANNOT_REFUND);
      }
      status := REFUNDED;
      outcome := Pass;
    }

    method PaymentFailed()
      modifies this
      ensures Record() == ReservationPaymentFailed(old(Record()))
    {
      if status != PAYMENT_PENDING {
        return;
      }
      status := PENDING;
    }
  }
}
