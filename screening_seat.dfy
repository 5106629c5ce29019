/**
 * The status of one seat in one screening and its guarded transitions
 * (domain/screening/entity/ScreeningSeat.java).
 *
 * A database row is the value `SeatRecord`; the transitions are functions on
 * it, and the entity class `ScreeningSeat` performs them in place.
 */
module ScreeningSeats {
  import opened Common
  import opened SeatStatuses
  import Seats

  datatype SeatRecord = SeatRecord(
    screeningId: nat,
    seat: Seats.SeatInfo,
    status: SeatStatus,
    holdToken: Option<string>,
    holdMember: Option<nat>,
    holdExpireAt: Option<int>,
    reservedMember: Option<nat>)
  {
    function SeatId(): nat
    {
      seat.id
    }
  }

  /** Two rows describe the same seat of the same screening. */
  predicate SameSeat(a: SeatRecord, b: SeatRecord)
  {
    a.screeningId == b.screeningId && a.seat == b.seat
  }

  predicate NoHoldInfo(r: SeatRecord)
  {
    r.holdToken.None? && r.holdMember.None? && r.holdExpireAt.None?
  }

  /** The builder: a null status means AVAILABLE; hold and reservation columns start null. */
  function NewSeatRecord(screeningId: nat, seat: Seats.SeatInfo, status: Option<SeatStatus>): (r: SeatRecord)
    ensures r.screeningId == screeningId && r.seat == seat
    ensures status.None? ==> r.status == AVAILABLE
    ensures status.Some? ==> r.status == status.value
    ensures NoHoldInfo(r) && r.reservedMember.None?
  {
    SeatRecord(screeningId, seat, if status.Some? then status.value else AVAILABLE, None, None, None, None)
  }

  /** `validateHoldToken`: a stored token that equals the presented one. */
  predicate ValidateHoldToken(r: SeatRecord, token: string)
  {
    r.holdToken == Some(token)
  }

  /** `isHoldExpired`: a held seat with an expiry strictly before `now`. */
  predicate IsHoldExpired(r: SeatRecord, now: int)
  {
    r.status == HOLD && r.holdExpireAt.Some? && now > r.holdExpireAt.value
  }

  function WithoutHoldInfo(r: SeatRecord): (c: SeatRecord)
    ensures NoHoldInfo(c) && SameSeat(c, r)
    ensures c.status == r.status && c.reservedMember == r.reservedMember
  {
    r.(holdToken := None, holdMember := None, holdExpireAt := None)
  }

  /** `hold`: AVAILABLE to HOLD, stamping holder, token and `now + minutes`; any other status is refused. */
  function HoldSeat(r: SeatRecord, member: nat, token: string, minutes: int, now: int): (res: Result<SeatRecord>)
    ensures res.Ok? <==> r.status.CanHold()
    ensures res.Err? ==> res.error == SEAT_NOT_AVAILABLE
    ensures res.Ok? ==> var n := res.value;
      n.status == HOLD && SameSeat(n, r) && n.reservedMember == r.reservedMember
      && n.holdMember == Some(member) && n.holdExpireAt == Some(PlusMinutes(now, minutes))
      && ValidateHoldToken(n, token) && (forall t :: ValidateHoldToken(n, t) ==> t == token)
  {
    if !r.status.CanHold() then Err(SEAT_NOT_AVAILABLE)
    else Ok(r.(status := HOLD, holdMember := Some(member), holdToken := Some(token),
               holdExpireAt := Some(PlusMinutes(now, minutes))))
  }

  /** `releaseHold`: from HOLD back to AVAILABLE with the hold cleared; otherwise nothing happens. */
  function ReleaseSeatHold(r: SeatRecord): (n: SeatRecord)
    ensures r.status != HOLD ==> n == r
    ensures r.status == HOLD ==>
      (n.status == AVAILABLE && NoHoldInfo(n) && SameSeat(n, r) && n.reservedMember == r.reservedMember)
  {
    if r.status != HOLD then r else WithoutHoldInfo(r.(status := AVAILABLE))
  }

  /** `startPayment`: HOLD to PAYMENT_PENDING; the hold token, holder and expiry stay on the row. */
  function StartSeatPayment(r: SeatRecord): (res: Result<SeatRecord>)
    ensures res.Ok? <==> r.status.CanPay()
    ensures res.Err? ==> res.error == SEAT_NOT_AVAILABLE
    ensures res.Ok? ==> res.value == r.(status := PAYMENT_PENDING)
  {
    if !r.status.CanPay() then Err(SEAT_NOT_AVAILABLE) else Ok(r.(status := PAYMENT_PENDING))
  }

  /** `reserve`: from PAYMENT_PENDING or HOLD to RESERVED for `member`, clearing the hold. */
  function ReserveSeat(r: SeatRecord, member: nat): (res: Result<SeatRecord>)
    ensures res.Ok? <==> r.status in {PAYMENT_PENDING, HOLD}
    ensures res.Err? ==> res.error == SEAT_ALREADY_RESERVED
    ensures res.Ok? ==> var n := res.value;
      n.status == RESERVED && n.reservedMember == Some(member) && NoHoldInfo(n) && SameSeat(n, r)
  {
    if r.status != PAYMENT_PENDING && r.status != HOLD then Err(SEAT_ALREADY_RESERVED)
    else Ok(WithoutHoldInfo(r.(status := RESERVED, reservedMember := Some(member))))
  }

  /** `paymentFailed`: from PAYMENT_PENDING back to AVAILABLE with the hold cleared; otherwise nothing. */
  function SeatPaymentFailed(r: SeatRecord): (n: SeatRecord)
    ensures r.status != PAYMENT_PENDING ==> n == r
    ensures r.status == PAYMENT_PENDING ==>
      (n.status == AVAILABLE && NoHoldInfo(n) && SameSeat(n, r) && n.reservedMember == r.reservedMember)
  {
    if r.status != PAYMENT_PENDING then r else WithoutHoldInfo(r.(status := AVAILABLE))
  }

  /** `cancel`: RESERVED to CANCELLED, keeping the reserving member; otherwise refused. */
  function CancelSeat(r: SeatRecord): (res: Result<SeatRecord>)
    ensures res.Ok? <==> r.status.CanCancel()
    ensures res.Err? ==> res.error == SEAT_NOT_AVAILABLE
    ensures res.Ok? ==> res.value == r.(status := CANCELLED)
  {
    if !r.status.CanCancel() then Err(SEAT_NOT_AVAILABLE) else Ok(r.(status := CANCELLED))
  }

  /** Every entity method that changes a seat, as one command type. */
  datatype SeatCommand =
    | HoldCmd(member: nat, token: string, minutes: int, now: int)
    | ReleaseHoldCmd
    | StartPaymentCmd
    | ReserveCmd(reserver: nat)
    | PaymentFailedCmd
    | CancelCmd

  function Step(r: SeatRecord, c: SeatCommand): Result<SeatRecord>
  {
    match c
    case HoldCmd(m, t, minutes, now) => HoldSeat(r, m, t, minutes, now)
    case ReleaseHoldCmd => Ok(ReleaseSeatHold(r))
    case StartPaymentCmd => StartSeatPayment(r)
    case ReserveCmd(m) => ReserveSeat(r, m)
    case PaymentFailedCmd => Ok(SeatPaymentFailed(r))
    case CancelCmd => CancelSeat(r)
  }

  /** The seat lifecycle drawn as a graph, independently of the methods. */
  predicate LifecycleEdge(from: SeatStatus, to: SeatStatus)
  {
    (from == AVAILABLE && to == HOLD)
    || (from == HOLD && to in {AVAILABLE, PAYMENT_PENDING, RESERVED})
    || (from == PAYMENT_PENDING && to in {RESERVED, AVAILABLE})
    || (from == RESERVED && to == CANCELLED)
  }

  /** Every command either fails, leaves the status alone, or follows an edge of the lifecycle. */
  lemma StepFollowsLifecycle(r: SeatRecord, c: SeatCommand)
    ensures Step(r, c).Ok? ==> Step(r, c).value.status == r.status || LifecycleEdge(r.status, Step(r, c).value.status)
    ensures Step(r, c).Ok? ==> SameSeat(Step(r, c).value, r)
  {
  }

  /** Conversely every edge of the lifecycle is taken by some command. */
  lemma LifecycleEdgesAreTaken(r: SeatRecord, to: SeatStatus)
    requires LifecycleEdge(r.status, to)
    ensures exists c :: Step(r, c).Ok? && Step(r, c).value.status == to
  {
    var c :=
      if r.status == AVAILABLE then HoldCmd(0, "", 0, 0)
      else if to == AVAILABLE && r.status == HOLD then ReleaseHoldCmd
      else if to == AVAILABLE then PaymentFailedCmd
      else if to == PAYMENT_PENDING then StartPaymentCmd
      else if to == RESERVED then ReserveCmd(0)
      else CancelCmd;
    assert Step(r, c).Ok? && Step(r, c).value.status == to;
  }

  /** CANCELLED, BLOCKED and DISABLED seats are never moved by any command. */
  lemma OutOfSaleStatusesAreTerminal(r: SeatRecord, c: SeatCommand)
    requires r.status in {CANCELLED, BLOCKED, DISABLED}
    ensures Step(r, c).Ok? ==> Step(r, c).value == r
  {
  }

  /**
   * The hold columns are all set or all null; a held seat always has them, and
   * only HOLD and PAYMENT_PENDING seats may carry them (startPayment keeps them).
   * A reserved seat always names its member.
   */
  predicate HoldColumnsConsistent(r: SeatRecord)
  {
    (r.holdToken.Some? <==> r.holdMember.Some?)
    && (r.holdToken.Some? <==> r.holdExpireAt.Some?)
    && (r.status == HOLD ==> r.holdToken.Some?)
    && (r.holdToken.Some? ==> r.status in {HOLD, PAYMENT_PENDING})
    && (r.status == RESERVED ==> r.reservedMember.Some?)
  }

  /** A seat built with no status, or one that is neither held nor reserved, starts consistent. */
  lemma NewSeatRecordConsistent(screeningId: nat, seat: Seats.SeatInfo, status: Option<SeatStatus>)
    requires status.None? || status.value !in {HOLD, RESERVED}
    ensures HoldColumnsConsistent(NewSeatRecord(screeningId, seat, status))
  {
  }

  /** Every command keeps the hold columns consistent. */
  lemma StepKeepsHoldColumnsConsistent(r: SeatRecord, c: SeatCommand)
    requires HoldColumnsConsistent(r)
    ensures Step(r, c).Ok? ==> HoldColumnsConsistent(Step(r, c).value)
  {
  }

  /** A fresh hold of non-negative length has not expired at the instant it was taken,
    * and expires exactly once the clock passes `now + minutes`. */
  lemma HoldExpiresAfterItsMinutes(r: SeatRecord, member: nat, token: string, minutes: nat, now: int, later: int)
    requires HoldSeat(r, member, token, minutes, now).Ok?
    ensures !IsHoldExpired(HoldSeat(r, member, token, minutes, now).value, now)
    ensures IsHoldExpired(HoldSeat(r, member, token, minutes, now).value, later) <==> later > PlusMinutes(now, minutes)
  {
  }

  function OutcomeOf(res: Result<SeatRecord>): Outcome
  {
    if res.Ok? then Pass else Fail(res.error)
  }

  /** The row after a method that throws on `Err` without touching the entity. */
  function After(res: Result<SeatRecord>, before: SeatRecord): SeatRecord
  {
    if res.Ok? then res.value else before
  }

  /** The JPA entity; its methods perform the transitions above in place. */
  class ScreeningSeat {
    var screeningId: nat
    var seat: Seats.SeatInfo
    var status: SeatStatus
    var holdToken: Option<string>
    var holdMember: Option<nat>
    var holdExpireAt: Option<int>
    var reservedMember: Option<nat>

    function Record(): SeatRecord
      reads this
    {
      SeatRecord(screeningId, seat, status, holdToken, holdMember, holdExpireAt, reservedMember)
    }

    constructor (screeningId: nat, seat: Seats.SeatInfo, status: Option<SeatStatus>)
      ensures Record() == NewSeatRecord(screeningId, seat, status)
    {
      this.screeningId := screeningId;
      this.seat := seat;
      this.status := if status.Some? then status.value else AVAILABLE;
      this.holdToken := None;
      this.holdMember := None;
      this.holdExpireAt := None;
      this.reservedMember := None;
    }

    method Hold(member: nat, token: string, minutes: int, now: int) returns (outcome: Outcome)
      modifies this
      ensures outcome == OutcomeOf(HoldSeat(old(Record()), member, token, minutes, now))
      ensures Record() == After(HoldSeat(old(Record()), member, token, minutes, now), old(Record()))
    {
      if !status.CanHold() {
        return Fail(SEAT_NOT_AVAILABLE);
      }
      status := HOLD;
      holdMember := Some(member);
      holdToken := Some(token);
      holdExpireAt := Some(PlusMinutes(now, minutes));
      outcome := Pass;
    }

    method ReleaseHold()
      modifies this
      ensures Record() == ReleaseSeatHold(old(Record()))
    {
      if status != HOLD {
        return;
      }
      status := AVAILABLE;
      ClearHoldInfo();
    }

    method StartPayment() returns (outcome: Outcome)
      modifies this
      ensures outcome == OutcomeOf(StartSeatPayment(old(Record())))
      ensures Record() == After(StartSeatPayment(old(Record())), old(Record()))
    {
      if !status.CanPay() {
        return Fail(SEAT_NOT_AVAILABLE);
      }
      status := PAYMENT_PENDING;
      outcome := Pass;
    }

    method Reserve(member: nat) returns (outcome: Outcome)
      modifies this
      ensures outcome == OutcomeOf(ReserveSeat(old(Record()), member))
      ensures Record() == After(ReserveSeat(old(Record()), member), old(Record()))
    {
      if status != PAYMENT_PENDING && status != HOLD {
        return Fail(SEAT_ALREADY_RESERVED);
      }
      status := RESERVED;
      reservedMember := Some(member);
      ClearHoldInfo();
      outcome := Pass;
    }

    method PaymentFailed()
      modifies this
      ensures Record() == SeatPaymentFailed(old(Record()))
    {
      if status != PAYMENT_PENDING {
        return;
      }
      status := AVAILABLE;
      ClearHoldInfo();
    }

    method Cancel() returns (outcome: Outcome)
      modifies this
      ensures outcome == OutcomeOf(CancelSeat(old(Record())))
      ensures Record() == After(CancelSeat(old(Record())), old(Record()))
    {
      if !status.CanCancel() {
        return Fail(SEAT_NOT_AVAILABLE);
      }
      status := CANCELLED;
      outcome := Pass;
    }

    /** `validateHoldTokenOrThrow`: INVALID_HOLD_TOKEN unless the stored token is the presented one. */
    method ValidateHoldTokenOrThrow(token: string) returns (outcome: Outcome)
      ensures outcome.Pass? <==> holdToken == Some(token)
      ensures outcome.Fail? ==> outcome.error == INVALID_HOLD_TOKEN
    {
      if !ValidateHoldToken(Record(), token) {
        return Fail(INVALID_HOLD_TOKEN);
      }
      outcome := Pass;
    }

    /** `validateHoldNotExpiredOrThrow`: SEAT_HOLD_EXPIRED exactly for a HOLD whose expiry is before `now`. */
    method ValidateHoldNotExpiredOrThrow(now: int) returns (outcome: Outcome)
      ensures outcome.Fail? <==> status == HOLD && holdExpireAt.Some? && now > holdExpireAt.value
      ensures outcome.Fail? ==> outcome.error == SEAT_HOLD_EXPIRED
    {
      if IsHoldExpired(Record(), now) {
        return Fail(SEAT_HOLD_EXPIRED);
      }
      outcome := Pass;
    }

    method ClearHoldInfo()
      modifies this
      ensures Record() == WithoutHoldInfo(old(Record()))
    {
      holdToken := None;
      holdMember := None;
      holdExpireAt := None;
    }
  }
}
