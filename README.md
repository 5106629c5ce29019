# Cinema seat booking, modelled in Dafny

This project models the seat-booking core of a cinema reservation service: a Spring Boot
backend in Java and a React frontend. Each project file holds one Dafny module for one
source file or component.

**Seat lifecycle.** For one screening, each seat moves through the states AVAILABLE → HOLD →
PAYMENT_PENDING → RESERVED → CANCELLED.
- `SeatStatuses` holds the guard predicates.
- `ScreeningSeats` holds the per-seat state machine.
- `Seats`, `Screenings`, `Reservations` and `Payments` model the surrounding entities and their
  guarded transitions.

**Services that drive the transitions.**
- Server-side pricing: `Pricing`.
- The mock payment gateway: `MockPayment`.
- Hold and release under a fail-fast per-seat lock, with a per-member hold cap and token
  checks against the hold store: `SeatCommands`, `LockManager` and `RedisHolds`.
- Payment and cancellation, which are all-or-nothing: `ReservationPayments`.
- The expiry sweep: `HoldExpiry` and `SeatRepository`.
- The cache-aside layout read: `SeatQuery`.
- The subscriber registry for server-sent events: `SeatSse`.

**Smaller rules around the core.**
- Screening overlap and end times: `ScreeningQueries` and `AdminScreenings`.
- Dashboard statistics: `AdminStats`.
- Admin listings: `AdminReservations`, `AdminPayments` and `JoinedRows`.
- The home page: `Home`.
- Three rate limiters:
  - a sliding-window deque per client (`AuthRateLimit`, `SlidingWindow`);
  - a fixed-window Redis counter (`RedisRateLimit`, `ApiRateLimit`);
  - a login brute-force lockout (`LoginBruteForce`).
- The client key taken from `X-Forwarded-For`: `ForwardedFor`.
- Log masking and truncation, client-log sanitising, JWT masking and the exception-message
  helpers: `LoggingAspect`, `ClientLog`, `JwtMask` and `ExceptionMessages`.
- The frontend's pure helpers:
  - seat-map grouping and click rules: `SeatMap`;
  - the hold-timer countdown: `HoldTimer`;
  - error-to-message mapping: `ErrorHandler`.

**How state is modelled.**
- Entities whose fields the source assigns in place are classes whose methods are proved
  to follow pure step functions. The properties are proved as lemmas about those functions.
- The database tables, the Redis store and the server-sent-event emitters are value maps and
  sequences.
- Whether each store call succeeds is an oracle parameter.
- The clock, UUIDs and generated numbers are parameters.
- A Java exception is an `Err`/`Fail` value carrying its `ErrorCode`.
- A `@Transactional` rollback is written out: on an error, the tables the call wrote return
  to their state at the start of the call, while the Redis and in-process side effects stay,
  as in the source.

## Model

| member | source | states |
|---|---|---|
| SeatStatuses.GuardsAreExclusive | src/main/java/com/cinema/domain/screening/entity/SeatStatus.java:36-52 | no status passes two of `canHold`, `canPay`, `canCancel`; exactly AVAILABLE, HOLD and RESERVED pass one |
| SeatStatuses.EachGuardAdmitsOneStatus | src/main/java/com/cinema/domain/screening/entity/SeatStatus.java:36-52 | `canHold` holds exactly for AVAILABLE, `canPay` for HOLD, `canCancel` for RESERVED |
| SeatStatuses.SelectableMeansHoldable | src/main/java/com/cinema/domain/screening/entity/SeatStatus.java:36-59 | `isSelectable` is the same test as `canHold`, and a selectable seat is never occupied |
| SeatStatuses.OccupiedStatuses | src/main/java/com/cinema/domain/screening/entity/SeatStatus.java:64-66 | `isOccupied` holds exactly for HOLD, PAYMENT_PENDING and RESERVED, and fails for the other four |
| Seats.DisplayNameInjective | src/main/java/com/cinema/domain/screening/entity/Seat.java:108-110 | when row labels hold no digits, `rowLabel + seatNo` names differ exactly when the (row, number) pairs differ |
| Seats.DisplayNameAmbiguousWithDigitRows | src/main/java/com/cinema/domain/screening/entity/Seat.java:108-110 | without a separator, row "A1" seat 1 and row "A" seat 11 both print "A11" |
| Seats.Seat.constructor | src/main/java/com/cinema/domain/screening/entity/Seat.java:69-75 | a new seat has the given position and type, and base status AVAILABLE |
| Seats.Seat.Block | src/main/java/com/cinema/domain/screening/entity/Seat.java:89-91 | base status becomes BLOCKED, the seat is no longer available, and its screen, position and type are unchanged |
| Seats.Seat.Disable | src/main/java/com/cinema/domain/screening/entity/Seat.java:93-95 | base status becomes DISABLED, the seat is no longer available, and its screen, position and type are unchanged |
| Seats.Seat.Enable | src/main/java/com/cinema/domain/screening/entity/Seat.java:97-103 | base status becomes AVAILABLE, `isAvailable` holds, and its screen, position and type are unchanged |
| Seats.Seat.GetDisplayName | src/main/java/com/cinema/domain/screening/entity/Seat.java:108-110 | the name starts with the row label, and for a non-negative number the rest is digits worth that number |
| Seats.Seat.UpdateInfo | src/main/java/com/cinema/domain/screening/entity/Seat.java:115-119 | a null type changes nothing; otherwise only the type is replaced |
| ScreeningSeats.NewSeatRecord | src/main/java/com/cinema/domain/screening/entity/ScreeningSeat.java:88-93 | the builder keeps screening and seat, maps a null status to AVAILABLE, and starts with no hold or reservation columns |
| ScreeningSeats.HoldSeat | src/main/java/com/cinema/domain/screening/entity/ScreeningSeat.java:130-138 | succeeds exactly on an AVAILABLE seat, else SEAT_NOT_AVAILABLE; the result is HOLD with holder, expiry `now + minutes`, and a token that validates only the given token |
| ScreeningSeats.ReleaseSeatHold | src/main/java/com/cinema/domain/screening/entity/ScreeningSeat.java:144-150 | a HOLD seat goes back to AVAILABLE with the hold columns cleared; any other seat is unchanged |
| ScreeningSeats.StartSeatPayment | src/main/java/com/cinema/domain/screening/entity/ScreeningSeat.java:156-162 | succeeds exactly on HOLD, else SEAT_NOT_AVAILABLE; only the status changes, to PAYMENT_PENDING, and the hold columns stay |
| ScreeningSeats.ReserveSeat | src/main/java/com/cinema/domain/screening/entity/ScreeningSeat.java:170-177 | succeeds exactly from PAYMENT_PENDING or HOLD, else SEAT_ALREADY_RESERVED; the seat becomes RESERVED for the member, with the hold cleared |
| ScreeningSeats.SeatPaymentFailed | src/main/java/com/cinema/domain/screening/entity/ScreeningSeat.java:183-189 | a PAYMENT_PENDING seat goes back to AVAILABLE with the hold cleared; any other seat is unchanged |
| ScreeningSeats.CancelSeat | src/main/java/com/cinema/domain/screening/entity/ScreeningSeat.java:195-201 | succeeds exactly on RESERVED, else SEAT_NOT_AVAILABLE; only the status changes, to CANCELLED |
| ScreeningSeats.StepFollowsLifecycle | src/main/java/com/cinema/domain/screening/entity/ScreeningSeat.java:130-201 | every successful transition keeps the seat's key, and keeps the status or moves along an edge of the seat lifecycle graph |
| ScreeningSeats.LifecycleEdgesAreTaken | src/main/java/com/cinema/domain/screening/entity/ScreeningSeat.java:130-201 | conversely, every edge of the lifecycle graph is taken by some entity method |
| ScreeningSeats.OutOfSaleStatusesAreTerminal | src/main/java/com/cinema/domain/screening/entity/ScreeningSeat.java:130-201 | no method moves a CANCELLED, BLOCKED or DISABLED seat |
| ScreeningSeats.NewSeatRecordConsistent | src/main/java/com/cinema/domain/screening/entity/ScreeningSeat.java:88-93 | a seat built without a status, or with one other than HOLD or RESERVED, satisfies the hold-columns invariant |
| ScreeningSeats.StepKeepsHoldColumnsConsistent | src/main/java/com/cinema/domain/screening/entity/ScreeningSeat.java:130-201 | every transition keeps the invariant: the hold columns are set together, only on HOLD or PAYMENT_PENDING seats, and a reserved seat names its member |
| ScreeningSeats.HoldExpiresAfterItsMinutes | src/main/java/com/cinema/domain/screening/entity/ScreeningSeat.java:130-138 | a fresh hold is not expired when taken, and `isHoldExpired` holds exactly once the clock passes `now + minutes` (lines 222-227) |
| ScreeningSeats.ScreeningSeat.constructor | src/main/java/com/cinema/domain/screening/entity/ScreeningSeat.java:88-93 | the entity's row is `NewSeatRecord` of its arguments |
| ScreeningSeats.ScreeningSeat.Hold | src/main/java/com/cinema/domain/screening/entity/ScreeningSeat.java:130-138 | throws what `HoldSeat` refuses and leaves the row alone; otherwise the row becomes `HoldSeat` of the old row |
| ScreeningSeats.ScreeningSeat.ReleaseHold | src/main/java/com/cinema/domain/screening/entity/ScreeningSeat.java:144-150 | the row becomes `ReleaseSeatHold` of the old row |
| ScreeningSeats.ScreeningSeat.StartPayment | src/main/java/com/cinema/domain/screening/entity/ScreeningSeat.java:156-162 | throws when `StartSeatPayment` refuses and leaves the row alone; otherwise the row becomes `StartSeatPayment` of the old row |
| ScreeningSeats.ScreeningSeat.Reserve | src/main/java/com/cinema/domain/screening/entity/ScreeningSeat.java:170-177 | throws when `ReserveSeat` refuses and leaves the row alone; otherwise the row becomes `ReserveSeat` of the old row |
| ScreeningSeats.ScreeningSeat.PaymentFailed | src/main/java/com/cinema/domain/screening/entity/ScreeningSeat.java:183-189 | the row becomes `SeatPaymentFailed` of the old row |
| ScreeningSeats.ScreeningSeat.Cancel | src/main/java/com/cinema/domain/screening/entity/ScreeningSeat.java:195-201 | throws when `CancelSeat` refuses and leaves the row alone; otherwise the row becomes `CancelSeat` of the old row |
| ScreeningSeats.ScreeningSeat.ValidateHoldTokenOrThrow | src/main/java/com/cinema/domain/screening/entity/ScreeningSeat.java:206-217 | passes exactly when the stored token equals the presented one; otherwise throws INVALID_HOLD_TOKEN |
| ScreeningSeats.ScreeningSeat.ValidateHoldNotExpiredOrThrow | src/main/java/com/cinema/domain/screening/entity/ScreeningSeat.java:222-236 | throws SEAT_HOLD_EXPIRED exactly for a HOLD seat whose expiry is before `now` |
| ScreeningSeats.ScreeningSeat.ClearHoldInfo | src/main/java/com/cinema/domain/screening/entity/ScreeningSeat.java:242-246 | the hold columns become null, and everything else is unchanged |
| Screenings.FirstSeatIndex | src/main/java/com/cinema/domain/screening/entity/Screening.java:137-142 | the index of the first owned seat row with this seat id, or the length when there is none |
| Screenings.CountAvailableAll | src/main/java/com/cinema/domain/screening/entity/Screening.java:165-169 | the available count equals the number of owned seats exactly when every seat is AVAILABLE |
| Screenings.CountAvailableAppend | src/main/java/com/cinema/domain/screening/entity/Screening.java:165-169 | counting available seats over two lists adds the two counts |
| Screenings.Screening.constructor | src/main/java/com/cinema/domain/screening/entity/Screening.java:81-88 | a new screening is SCHEDULED, owns no seats, and keeps the given movie, screen and times |
| Screenings.Screening.Start | src/main/java/com/cinema/domain/screening/entity/Screening.java:105-110 | passes exactly from SCHEDULED and moves to NOW_SHOWING; any other status throws and stays; nothing else changes |
| Screenings.Screening.End | src/main/java/com/cinema/domain/screening/entity/Screening.java:112-114 | the status becomes ENDED from any status; nothing else changes |
| Screenings.Screening.Cancel | src/main/java/com/cinema/domain/screening/entity/Screening.java:116-121 | throws exactly when ENDED; otherwise the status becomes CANCELLED, even when it already was; nothing else changes |
| Screenings.Screening.AddScreeningSeat | src/main/java/com/cinema/domain/screening/entity/Screening.java:130-132 | the seat is appended to the owned list; the other fields are unchanged |
| Screenings.Screening.FindSeat | src/main/java/com/cinema/domain/screening/entity/Screening.java:137-142 | returns the first owned row with the seat id; SEAT_NOT_FOUND exactly when there is none |
| Screenings.Screening.ValidateBookable | src/main/java/com/cinema/domain/screening/entity/Screening.java:147-160 | passes exactly when SCHEDULED and starting strictly after `now`; otherwise SCREENING_NOT_BOOKABLE |
| Screenings.Screening.GetAvailableSeatCount | src/main/java/com/cinema/domain/screening/entity/Screening.java:165-169 | the number of owned seats in AVAILABLE, which is at most the number owned |
| Payments.NewPayment | src/main/java/com/cinema/domain/payment/entity/Payment.java:88-95 | the builder: PENDING for the given amount and method, with no PG id and no timestamps |
| Payments.PaymentSucceeded | src/main/java/com/cinema/domain/payment/entity/Payment.java:116-124 | succeeds exactly from PENDING, else PAYMENT_CANNOT_COMPLETE; records SUCCESS, the PG transaction id and the payment time |
| Payments.PaymentFailed | src/main/java/com/cinema/domain/payment/entity/Payment.java:130-136 | succeeds exactly from PENDING, else PAYMENT_FAILED; only the status changes, to FAILED |
| Payments.PaymentCancelled | src/main/java/com/cinema/domain/payment/entity/Payment.java:142-149 | succeeds exactly from SUCCESS, else PAYMENT_CANNOT_CANCEL; records CANCELLED and the cancel time |
| Payments.PaymentRefunded | src/main/java/com/cinema/domain/payment/entity/Payment.java:155-161 | succeeds exactly from CANCELLED, else PAYMENT_CANNOT_REFUND; only the status changes, to REFUNDED |
| Payments.StepFollowsLifecycle | src/main/java/com/cinema/domain/payment/entity/Payment.java:116-161 | every successful transition follows an edge of the payment lifecycle graph, and keeps the amount, method, number and reservation |
| Payments.FailedAndRefundedAreTerminal | src/main/java/com/cinema/domain/payment/entity/Payment.java:116-161 | every transition from FAILED or REFUNDED is refused |
| Payments.StepKeepsTimestampsConsistent | src/main/java/com/cinema/domain/payment/entity/Payment.java:116-161 | the invariant holds after every transition: a paid payment has its PG id and payment time, and only a cancelled or refunded one has a cancel time |
| Payments.Payment.constructor | src/main/java/com/cinema/domain/payment/entity/Payment.java:88-95 | the entity's record is `NewPayment` of its arguments |
| Payments.Payment.Success | src/main/java/com/cinema/domain/payment/entity/Payment.java:116-124 | throws what `PaymentSucceeded` refuses and leaves the entity alone; otherwise its record becomes `PaymentSucceeded` of the old record |
| Payments.Payment.Fail | src/main/java/com/cinema/domain/payment/entity/Payment.java:130-136 | the same, against `PaymentFailed` |
| Payments.Payment.Cancel | src/main/java/com/cinema/domain/payment/entity/Payment.java:142-149 | the same, against `PaymentCancelled` |
| Payments.Payment.Refund | src/main/java/com/cinema/domain/payment/entity/Payment.java:155-161 | the same, against `PaymentRefunded` |
| Reservations.SumPricesAppend | src/main/java/com/cinema/domain/reservation/entity/Reservation.java:128-132 | one more line adds exactly its price to the sum |
| Reservations.SumPricesNonNegative | src/main/java/com/cinema/domain/reservation/entity/Reservation.java:128-132 | lines with non-negative prices sum to a non-negative amount |
| Reservations.NewReservation | src/main/java/com/cinema/domain/reservation/entity/Reservation.java:90-99 | the builder: PENDING, no lines, both totals zero, keeping member, screening and hold token; the totals invariant holds |
| Reservations.AddLine | src/main/java/com/cinema/domain/reservation/entity/Reservation.java:119-123 | the line is appended, and nothing but the lines and the two totals changes |
| Reservations.AddLineKeepsTotals | src/main/java/com/cinema/domain/reservation/entity/Reservation.java:119-132 | after `addSeat` the seat count is the number of lines and the amount is the sum of their prices; a consistent reservation grows by one seat and by exactly the line's price |
| Reservations.StartReservationPayment | src/main/java/com/cinema/domain/reservation/entity/Reservation.java:138-144 | succeeds exactly from PENDING, else RESERVATION_CANNOT_START_PAYMENT; only the status changes, to PAYMENT_PENDING |
| Reservations.ConfirmReservation | src/main/java/com/cinema/domain/reservation/entity/Reservation.java:150-157 | succeeds exactly from PAYMENT_PENDING, else RESERVATION_CANNOT_CONFIRM; becomes CONFIRMED and drops the hold token |
| Reservations.CancelReservation | src/main/java/com/cinema/domain/reservation/entity/Reservation.java:163-168 | succeeds exactly from CONFIRMED, else RESERVATION_CANNOT_CANCEL; only the status changes, to CANCELLED |
| Reservations.RefundReservation | src/main/java/com/cinema/domain/reservation/entity/Reservation.java:174-180 | succeeds exactly from CANCELLED, else RESERVATION_CANNOT_REFUND; only the status changes, to REFUNDED |
| Reservations.ReservationPaymentFailed | src/main/java/com/cinema/domain/reservation/entity/Reservation.java:185-190 | PAYMENT_PENDING goes back to PENDING; from any other status nothing changes |
| Reservations.StepFollowsLifecycle | src/main/java/com/cinema/domain/reservation/entity/Reservation.java:119-190 | every method fails, keeps the status, or follows an edge of the lifecycle graph; none changes the id, number, member or screening; only `addSeat` changes the lines |
| Reservations.StepKeepsTotals | src/main/java/com/cinema/domain/reservation/entity/Reservation.java:119-190 | every method keeps the totals invariant (seat count and amount describe the lines) |
| Reservations.RefundedIsTerminal | src/main/java/com/cinema/domain/reservation/entity/Reservation.java:138-190 | no method moves a REFUNDED reservation to another status |
| Reservations.Reservation.constructor | src/main/java/com/cinema/domain/reservation/entity/Reservation.java:90-99 | the entity's record is `NewReservation` of its arguments |
| Reservations.Reservation.AddSeat | src/main/java/com/cinema/domain/reservation/entity/Reservation.java:119-123 | the record becomes `AddLine` of the old record |
| Reservations.Reservation.RecalculateTotalAmount | src/main/java/com/cinema/domain/reservation/entity/Reservation.java:128-132 | the loop leaves the amount equal to the sum of the line prices, and changes nothing else |
| Reservations.Reservation.StartPayment | src/main/java/com/cinema/domain/reservation/entity/Reservation.java:138-144 | throws what `StartReservationPayment` refuses and leaves the entity alone; otherwise the record becomes its result |
| Reservations.Reservation.Confirm | src/main/java/com/cinema/domain/reservation/entity/Reservation.java:150-157 | the same, against `ConfirmReservation` |
| Reservations.Reservation.Cancel | src/main/java/com/cinema/domain/reservation/entity/Reservation.java:163-168 | the same, against `CancelReservation` |
| Reservations.Reservation.Refund | src/main/java/com/cinema/domain/reservation/entity/Reservation.java:174-180 | the same, against `RefundReservation` |
| Reservations.Reservation.PaymentFailed | src/main/java/com/cinema/domain/reservation/entity/Reservation.java:185-190 | the record becomes `ReservationPaymentFailed` of the old record |
| MockPayment.ProcessPayment | src/main/java/com/cinema/domain/payment/service/MockPaymentService.java:28-32 | always approves |
| MockPayment.ProcessPaymentWithFailure | src/main/java/com/cinema/domain/payment/service/MockPaymentService.java:37-43 | approves exactly when not forced to fail |
| MockPayment.AnswersIgnoreAmountAndMethod | src/main/java/com/cinema/domain/payment/service/MockPaymentService.java:28-43 | neither answer depends on the amount or the method; without forcing, the two methods agree |
| Pricing.DefaultPriceTable | src/main/java/com/cinema/domain/screening/service/PriceCalculateService.java:29-45 | with the default properties every type costs from 10000 (exactly NORMAL and WHEELCHAIR) to 25000 |
| Pricing.LookupSeats | src/main/java/com/cinema/domain/screening/service/PriceCalculateService.java:56-59 | fails with SEAT_NOT_FOUND exactly when some requested seat is missing; otherwise returns each requested seat's row, in request order |
| Pricing.ToPriceMap | src/main/java/com/cinema/domain/screening/service/PriceCalculateService.java:61-64 | `toMap` fails exactly on a repeated seat id; otherwise its keys are the seats' ids, each mapped to the base price of its type |
| Pricing.Calculate | src/main/java/com/cinema/domain/screening/service/PriceCalculateService.java:51-69 | no seats give INVALID_INPUT; an unknown seat gives SEAT_NOT_FOUND |
| Pricing.CalculateOk | src/main/java/com/cinema/domain/screening/service/PriceCalculateService.java:51-79 | a successful calculation had distinct seats, prices exactly the requested seats, each at its type's base price, and totals those prices |
| Pricing.CalculateRejectsRepeatedSeat | src/main/java/com/cinema/domain/screening/service/PriceCalculateService.java:61-64 | when every seat exists, a repeated seat id makes the calculation fail with DUPLICATE_KEY |
| Pricing.TotalWithinTable | src/main/java/com/cinema/domain/screening/service/PriceCalculateService.java:66 | for n seats the total lies between n times the cheapest and n times the dearest configured price |
| Pricing.SumOverOrderIndependent | src/main/java/com/cinema/domain/screening/service/PriceCalculateService.java:66 | any two duplicate-free listings of the same seat ids give the same total, so the map's iteration order does not matter |
| SeatRepository.FindRow | src/main/java/com/cinema/domain/screening/repository/ScreeningSeatRepository.java:29 | finds nothing exactly when no row has the key; a row found is in the table and has the key |
| SeatRepository.FindRowUnique | src/main/java/com/cinema/domain/screening/entity/ScreeningSeat.java:37-38 | under the unique key a lookup returns the one row with that key |
| SeatRepository.StoreRowSpec | src/main/java/com/cinema/domain/screening/repository/ScreeningSeatRepository.java:29 | after `save` the row's key finds it, every other key finds what it found before, keys stay unique, and an existing row is overwritten in place |
| SeatRepository.ExpiredHoldIsHoldExpired | src/main/java/com/cinema/domain/screening/repository/ScreeningSeatRepositoryImpl.java:31-39 | the query's where-clause agrees with the entity's `isHoldExpired` on every row |
| SeatRepository.FindExpiredHoldsSpec | src/main/java/com/cinema/domain/screening/repository/ScreeningSeatRepositoryImpl.java:31-39 | returns exactly the rows in HOLD whose expiry is before `now`, in table order |
| SeatRepository.ReleaseRowsSpec | src/main/java/com/cinema/domain/screening/repository/ScreeningSeatRepositoryImpl.java:43-55 | each matching row is released as the entity's `releaseHold` would; every other row is unchanged; no row changes its key |
| SeatRepository.ReleaseRowsIdempotent | src/main/java/com/cinema/domain/screening/repository/ScreeningSeatRepositoryImpl.java:43-55 | after the release no expired hold is left, and a second release changes nothing |
| SeatRepository.ReleaseRowsKeepConsistency | src/main/java/com/cinema/domain/screening/repository/ScreeningSeatRepositoryImpl.java:43-55 | rows whose hold columns agree with their status still agree after the release |
| SeatRepository.FindHoldsByMemberSpec | src/main/java/com/cinema/domain/screening/repository/ScreeningSeatRepositoryImpl.java:58-66 | returns exactly the rows in HOLD held by the member, one per matching row |
| SeatRepository.GroupCounts | src/main/java/com/cinema/domain/screening/repository/ScreeningSeatRepositoryImpl.java:69-87 | at most one entry per status; each entry is a status with its exact, positive count of the screening's seats |
| SeatRepository.GroupCountsCovers | src/main/java/com/cinema/domain/screening/repository/ScreeningSeatRepositoryImpl.java:69-87 | every status that some seat of the screening is in has an entry |
| SeatRepository.GroupSumsCounts | src/main/java/com/cinema/domain/screening/repository/ScreeningSeatRepositoryImpl.java:69-87 | the entries' counts add up to the per-status counts over the listed statuses |
| SeatRepository.SumCountsIsScreeningCount | src/main/java/com/cinema/domain/screening/repository/ScreeningSeatRepositoryImpl.java:69-87 | over all seven statuses the per-status counts add up to the screening's number of seats |
| SeatRepository.GroupCountsSumToSeats | src/main/java/com/cinema/domain/screening/repository/ScreeningSeatRepositoryImpl.java:69-87 | the grouped counts add up to the screening's number of seats |
| SeatRepository.ScreeningSeatRepository.FindByScreeningIdAndSeatId | src/main/java/com/cinema/domain/screening/repository/ScreeningSeatRepository.java:29 | returns the row with the key, if any |
| SeatRepository.ScreeningSeatRepository.Save | src/main/java/com/cinema/domain/screening/repository/ScreeningSeatRepository.java:29 | stores the row under its key, keeps the keys unique, and leaves every other key's row alone |
| SeatRepository.ScreeningSeatRepository.FindExpired | src/main/java/com/cinema/domain/screening/repository/ScreeningSeatRepositoryImpl.java:31-39 | returns `FindExpiredHolds` of the table |
| SeatRepository.ScreeningSeatRepository.ReleaseExpiredHolds | src/main/java/com/cinema/domain/screening/repository/ScreeningSeatRepositoryImpl.java:43-55 | updates the table to `ReleaseRows` and returns the number of rows the query matched |
| SeatRepository.ScreeningSeatRepository.FindHoldsByMemberId | src/main/java/com/cinema/domain/screening/repository/ScreeningSeatRepositoryImpl.java:58-66 | returns `FindHoldsByMember` of the table |
| SeatRepository.ScreeningSeatRepository.CountByScreeningIdGroupByStatus | src/main/java/com/cinema/domain/screening/repository/ScreeningSeatRepositoryImpl.java:69-87 | returns the grouped counts, which add up to the screening's number of seats |
| LockManager.SeatLockKey | src/main/java/com/cinema/infrastructure/lock/DistributedLockManager.java:61-63 | every seat lock key starts with `lock:screening:` |
| LockManager.SeatLockKeyInjective | src/main/java/com/cinema/infrastructure/lock/DistributedLockManager.java:61-63 | two seat lock keys are equal exactly when the screening and the seat are |
| LockManager.TryAcquire | src/main/java/com/cinema/infrastructure/lock/DistributedLockManager.java:73-110 | a reentrant `tryLock` succeeds exactly when the lock is free or the caller's; on success the caller holds it; on failure nothing changes |
| LockManager.ReleaseOnce | src/main/java/com/cinema/infrastructure/lock/DistributedLockManager.java:139-165 | an owner's `unlock` frees the lock exactly when it was not re-entered; otherwise one re-entry is given back |
| LockManager.ReleaseUndoesAcquire | src/main/java/com/cinema/infrastructure/lock/DistributedLockManager.java:73-165 | one release undoes one successful acquisition |
| LockManager.TryLockStepSpec | src/main/java/com/cinema/infrastructure/lock/DistributedLockManager.java:73-110 | on the table consulted (the store when the client answers, the local lock otherwise) an attempt succeeds exactly when the key is free or the caller's and the attempt is not interrupted; the other table and every other key are unchanged |
| LockManager.FailFastMeansHeldElsewhere | src/main/java/com/cinema/infrastructure/lock/DistributedLockManager.java:118-120 | with wait 0 and no interrupt, a failed attempt means another thread holds the key on the table consulted |
| LockManager.UnlockUndoesTryLock | src/main/java/com/cinema/infrastructure/lock/DistributedLockManager.java:73-165 | a successful lock followed by an unlock that reaches the same table leaves both tables as they were |
| LockManager.UnlockByNonHolderIsNoOp | src/main/java/com/cinema/infrastructure/lock/DistributedLockManager.java:139-165 | an unlock by a thread that holds the key nowhere changes nothing |
| LockManager.FallbackIgnoresStoreHolder | src/main/java/com/cinema/infrastructure/lock/DistributedLockManager.java:73-110 | while one thread holds a key in the store, another thread is refused by the store but gets the same key from the local fallback when its store call fails |
| LockManager.DistributedLockManager.constructor | src/main/java/com/cinema/infrastructure/lock/DistributedLockManager.java:40-45 | both lock tables start empty; the manager records whether a store client exists |
| LockManager.DistributedLockManager.IsAvailable | src/main/java/com/cinema/infrastructure/lock/DistributedLockManager.java:50-52 | true exactly when a store client exists |
| LockManager.DistributedLockManager.TryLock | src/main/java/com/cinema/infrastructure/lock/DistributedLockManager.java:73-110 | the answer and the new tables are `TryLockStep` of the old tables |
| LockManager.DistributedLockManager.TryLockDefault | src/main/java/com/cinema/infrastructure/lock/DistributedLockManager.java:118-120 | the same as `TryLock` with wait 0 |
| LockManager.DistributedLockManager.TryLockSeat | src/main/java/com/cinema/infrastructure/lock/DistributedLockManager.java:129-132 | the same as `TryLockDefault` on the seat's lock key |
| LockManager.DistributedLockManager.Unlock | src/main/java/com/cinema/infrastructure/lock/DistributedLockManager.java:139-165 | the new tables are `UnlockStep` of the old tables |
| LockManager.DistributedLockManager.UnlockSeat | src/main/java/com/cinema/infrastructure/lock/DistributedLockManager.java:173-176 | the same as `Unlock` on the seat's lock key |
| LockManager.DistributedLockManager.ExecuteWithLock | src/main/java/com/cinema/infrastructure/lock/DistributedLockManager.java:186-195 | without the lock gives SEAT_LOCK_FAILED and runs nothing; with it, returns the action's value and then unlocks |
| RedisHolds.HoldKey | src/main/java/com/cinema/infrastructure/redis/RedisService.java:279-281 | every hold key starts with `seat:hold:` |
| RedisHolds.StatusKey | src/main/java/com/cinema/infrastructure/redis/RedisService.java:283-285 | every layout-cache key starts with `seat:status:` |
| RedisHolds.RefreshTokenKey | src/main/java/com/cinema/infrastructure/redis/RedisService.java:287-289 | every refresh-token key starts with `refresh:token:` |
| RedisHolds.HoldKeyInjective | src/main/java/com/cinema/infrastructure/redis/RedisService.java:279-281 | two hold keys are equal exactly when the screening and the seat are |
| RedisHolds.StatusKeyInjective | src/main/java/com/cinema/infrastructure/redis/RedisService.java:279-285 | two layout keys are equal exactly when the screenings are, and no layout key is a hold key |
| RedisHolds.SaveHoldStep | src/main/java/com/cinema/infrastructure/redis/RedisService.java:65-91 | records whether the store answered and never touches the layout cache |
| RedisHolds.GetLocalHoldStep | src/main/java/com/cinema/infrastructure/redis/RedisService.java:299-307 | returns the local view of the key; removes the entry exactly when it is past its expiry, and nothing else |
| RedisHolds.GetHoldStep | src/main/java/com/cinema/infrastructure/redis/RedisService.java:96-114 | returns the hold visible at `now` on the side that answers; leaves the store's holds and the cache alone |
| RedisHolds.GetHoldKeepsViews | src/main/java/com/cinema/infrastructure/redis/RedisService.java:96-114 | a lookup removes only entries no lookup at that instant could see: every key's view is unchanged |
| RedisHolds.ValidateHoldTokenStep | src/main/java/com/cinema/infrastructure/redis/RedisService.java:119-123 | true exactly when a hold is found and carries this token |
| RedisHolds.DeleteHoldStep | src/main/java/com/cinema/infrastructure/redis/RedisService.java:128-144 | removes the key from the store when it answers, and from the local map only when it fails; the other side and the cache are unchanged |
| RedisHolds.GetLocalHoldTtlStep | src/main/java/com/cinema/infrastructure/redis/RedisService.java:309-318 | -1 exactly for a missing entry or one whose time is up (which is removed); otherwise the whole seconds left, rounded down |
| RedisHolds.GetHoldTtlStep | src/main/java/com/cinema/infrastructure/redis/RedisService.java:149-162 | the store's own answer when it answers; the local estimate when it fails |
| RedisHolds.SaveSeatStatusStep | src/main/java/com/cinema/infrastructure/redis/RedisService.java:225-236 | a write that reaches the store caches the layout until now plus the TTL; a failed write changes only the availability flag |
| RedisHolds.GetSeatStatusStep | src/main/java/com/cinema/infrastructure/redis/RedisService.java:241-258 | a hit exactly when the store answers and holds an unexpired layout for the key, which is returned as stored |
| RedisHolds.InvalidateSeatStatusStep | src/main/java/com/cinema/infrastructure/redis/RedisService.java:263-273 | removes the key from the cache when the store answers; otherwise the cache is unchanged |
| RedisHolds.SavedHoldValidates | src/main/java/com/cinema/infrastructure/redis/RedisService.java:65-123 | a saved hold is found, with its token and holder, and its token validates, until it expires, as long as lookups reach the same side |
| RedisHolds.SavedHoldNotSeenAcrossStores | src/main/java/com/cinema/infrastructure/redis/RedisService.java:65-114 | a hold saved on one side is invisible to lookups on the other side |
| RedisHolds.DeletedHoldIsGone | src/main/java/com/cinema/infrastructure/redis/RedisService.java:96-144 | after `deleteHold` a lookup on the same side finds nothing |
| RedisHolds.LocalHoldSurvivesStoreDelete | src/main/java/com/cinema/infrastructure/redis/RedisService.java:65-144 | a hold saved locally during an outage survives a delete that reaches the store, and is found again at the next outage |
| RedisHolds.LocalHoldExpiryBoundary | src/main/java/com/cinema/infrastructure/redis/RedisService.java:299-318 | at the very millisecond of expiry the local lookup still returns the hold, while the local TTL reports -1 and removes it |
| RedisHolds.CachedLayoutRoundTrip | src/main/java/com/cinema/infrastructure/redis/RedisService.java:225-258 | a layout written and read back before it expires, with the store answering, is the same layout |
| RedisHolds.InvalidatedLayoutMisses | src/main/java/com/cinema/infrastructure/redis/RedisService.java:241-273 | after invalidation a read that reaches the store misses |
| RedisHolds.RedisService.IsAvailable | src/main/java/com/cinema/infrastructure/redis/RedisService.java:51-53 | returns the availability flag |
| RedisHolds.RedisService.SaveHold | src/main/java/com/cinema/infrastructure/redis/RedisService.java:65-91 | returns the fresh token; the new state is `SaveHoldStep` of the old one |
| RedisHolds.RedisService.GetLocalHold | src/main/java/com/cinema/infrastructure/redis/RedisService.java:299-307 | answer and local map are `GetLocalHoldStep` of the old local map; nothing else changes |
| RedisHolds.RedisService.GetHold | src/main/java/com/cinema/infrastructure/redis/RedisService.java:96-114 | answer and new state are `GetHoldStep` of the old state |
| RedisHolds.RedisService.ValidateHoldToken | src/main/java/com/cinema/infrastructure/redis/RedisService.java:119-123 | answer and new state are `ValidateHoldTokenStep` of the old state |
| RedisHolds.RedisService.DeleteHold | src/main/java/com/cinema/infrastructure/redis/RedisService.java:128-144 | the new state is `DeleteHoldStep` of the old state |
| RedisHolds.RedisService.GetLocalHoldTtlSeconds | src/main/java/com/cinema/infrastructure/redis/RedisService.java:309-318 | answer and local map are `GetLocalHoldTtlStep` of the old local map; nothing else changes |
| RedisHolds.RedisService.GetHoldTtl | src/main/java/com/cinema/infrastructure/redis/RedisService.java:149-162 | answer and new state are `GetHoldTtlStep` of the old state |
| RedisHolds.RedisService.SaveSeatStatus | src/main/java/com/cinema/infrastructure/redis/RedisService.java:225-236 | the new state is `SaveSeatStatusStep` of the old state |
| RedisHolds.RedisService.GetSeatStatus | src/main/java/com/cinema/infrastructure/redis/RedisService.java:241-258 | answer and new state are `GetSeatStatusStep` of the old state |
| RedisHolds.RedisService.InvalidateSeatStatus | src/main/java/com/cinema/infrastructure/redis/RedisService.java:263-273 | the new state is `InvalidateSeatStatusStep` of the old state |
| SeatQuery.ToSeatStatusItem | src/main/java/com/cinema/domain/screening/service/SeatStatusQueryService.java:154-162 | copies the seat id, status, row, number and expiry of the row; never a hold token or an ownership flag |
| SeatQuery.BuildLayout | src/main/java/com/cinema/domain/screening/service/SeatStatusQueryService.java:107-140 | one item per row, in order, each the row's `toSeatStatusItem` |
| SeatQuery.EnrichItem | src/main/java/com/cinema/domain/screening/service/SeatStatusQueryService.java:168-200 | keeps every shared field; marks the item as the caller's, with its token, exactly when it is HOLD and the hold found is the caller's; otherwise no token and false |
| SeatQuery.EnrichAllSpec | src/main/java/com/cinema/domain/screening/service/SeatStatusQueryService.java:168-200 | the pass keeps length and order and marks each item from the holds as they stood before the pass; it leaves the store's holds and the cache alone |
| SeatQuery.EnrichedLayoutShowsOwnHolds | src/main/java/com/cinema/domain/screening/service/SeatStatusQueryService.java:54-66 | in the layout shown to a caller, an item is marked as theirs exactly when it is HOLD and its hold belongs to them |
| SeatQuery.FromDbStep | src/main/java/com/cinema/domain/screening/service/SeatStatusQueryService.java:107-140 | an unknown screening gives SCREENING_NOT_FOUND and changes nothing |
| SeatQuery.CacheHitSkipsDatabase | src/main/java/com/cinema/domain/screening/service/SeatStatusQueryService.java:71-97 | a cache hit returns the cached layout, whatever the database holds |
| SeatQuery.CacheMissBuildsFromRows | src/main/java/com/cinema/domain/screening/service/SeatStatusQueryService.java:71-140 | on a miss the layout is built from the screening's rows whether or not the cache write succeeds; a successful write makes a read within the TTL a hit |
| SeatQuery.SharedLayoutCarriesNoToken | src/main/java/com/cinema/domain/screening/service/SeatStatusQueryService.java:71-162 | no shared layout, cached or freshly built, carries a hold token or an ownership flag, and the cache keeps none |
| SeatQuery.SeatStatusQueryService.GetSeatLayoutInternal | src/main/java/com/cinema/domain/screening/service/SeatStatusQueryService.java:71-77 | answer and new store state are `LayoutInternalStep` of the old state |
| SeatQuery.SeatStatusQueryService.EnrichWithMyHold | src/main/java/com/cinema/domain/screening/service/SeatStatusQueryService.java:168-200 | the items and new store state are `EnrichAll` of the old state |
| SeatQuery.SeatStatusQueryService.GetSeatLayout | src/main/java/com/cinema/domain/screening/service/SeatStatusQueryService.java:54-66 | without a caller the shared layout; with one, that layout after the per-caller pass; errors pass through |
| SeatQuery.SeatStatusQueryService.InvalidateSeatStatusCache | src/main/java/com/cinema/domain/screening/service/SeatStatusQueryService.java:210-218 | the new store state is `InvalidateSeatStatusStep` of the layout key |
| SeatCommands.TtlOrFallback | src/main/java/com/cinema/domain/screening/service/SeatCommandService.java:120-124 | the store's TTL when it is present and not negative, otherwise the 420-second fallback |
| SeatCommands.DoHoldSpec | src/main/java/com/cinema/domain/screening/service/SeatCommandService.java:89-134 | a hold succeeds exactly when member, hold limit (fewer than 4), screening, bookability and seat checks pass and the seat is AVAILABLE; then the seat is HOLD for the caller under the returned token, which the hold store also returns; the layout cache is dropped; no other seat changes; a refused check changes nothing and no refusal changes a seat |
| SeatCommands.DoReleaseSpec | src/main/java/com/cinema/domain/screening/service/SeatCommandService.java:166-184 | a release succeeds exactly when the hold store and the seat both carry the token; then the seat gets `releaseHold`, the entry is deleted, and no other seat changes; a failure is SEAT_NOT_FOUND or INVALID_HOLD_TOKEN as the checks fall, and leaves the seats alone |
| SeatCommands.HoldThenReleaseRestoresSeats | src/main/java/com/cinema/domain/screening/service/SeatCommandService.java:89-184 | a successful hold followed, before it expires, by a release with the returned token succeeds and leaves every seat as it was before the hold |
| SeatCommands.RefusedHoldLocksOutHolder | src/main/java/com/cinema/domain/screening/service/SeatCommandService.java:110-112 | as written, a second member's hold on a held seat is refused with SEAT_NOT_AVAILABLE but has already overwritten the hold entry, so the holder's release then fails with INVALID_HOLD_TOKEN |
| SeatCommands.CheckedHoldKeepsHolderEntry | src/main/java/com/cinema/domain/screening/service/SeatCommandService.java:106-112 | with the status check first, a refused hold changes nothing and every release answers as before; on a holdable seat it is exactly `doHold`, and every refusal gives the same error |
| SeatCommands.ReleaseDuringPaymentKeepsSeatPending | src/main/java/com/cinema/domain/screening/service/SeatCommandService.java:166-184 | a release presented with the token while the seat is PAYMENT_PENDING reports success, deletes the hold entry, and leaves the seat PAYMENT_PENDING |
| SeatCommands.SeatCommandService.constructor | src/main/java/com/cinema/domain/screening/service/SeatCommandService.java:64-184 | the service is built over the lock manager, the hold store and the seat table |
| SeatCommands.SeatCommandService.Hold | src/main/java/com/cinema/domain/screening/service/SeatCommandService.java:64-77 | SEAT_LOCK_FAILED with nothing else touched when the seat lock is not acquired; otherwise `doHold`, after which the lock is given back |
| SeatCommands.SeatCommandService.DoHold | src/main/java/com/cinema/domain/screening/service/SeatCommandService.java:89-134 | answer and new tables are `DoHoldStep` of the old tables |
| SeatCommands.SeatCommandService.HoldRow | src/main/java/com/cinema/domain/screening/service/SeatCommandService.java:110-133 | answer and new tables are `HoldRowStep` of the old tables |
| SeatCommands.SeatCommandService.ReleaseHold | src/main/java/com/cinema/domain/screening/service/SeatCommandService.java:144-157 | SEAT_LOCK_FAILED with nothing else touched when the seat lock is not acquired; otherwise `doReleaseHold`, after which the lock is given back |
| SeatCommands.SeatCommandService.DoReleaseHold | src/main/java/com/cinema/domain/screening/service/SeatCommandService.java:166-184 | outcome and new tables are `DoReleaseStep` of the old tables |
| ReservationPayments.ApplyOrder | src/main/java/com/cinema/domain/reservation/service/ReservationPaymentService.java:76-79 | one per-seat command applies exactly when the seat exists, the token (if any) matches and the transition allows it; then only that row is replaced |
| ReservationPayments.ApplyOrdersSpec | src/main/java/com/cinema/domain/reservation/service/ReservationPaymentService.java:76-79 | commands on distinct seats complete exactly when each applies to the rows as they were before the loop; then each seat holds what its command made of its original row, no other seat changes, and keys stay unique |
| ReservationPayments.StartOrders | src/main/java/com/cinema/domain/reservation/service/ReservationPaymentService.java:76-79 | one start-payment command per requested seat, with its token |
| ReservationPayments.ReleaseOrders | src/main/java/com/cinema/domain/reservation/service/ReservationPaymentService.java:87-89 | one payment-failure release per requested seat |
| ReservationPayments.ReserveOrders | src/main/java/com/cinema/domain/reservation/service/ReservationPaymentService.java:128-132 | one reserve command per requested seat, for the member, with its token |
| ReservationPayments.CancelOrders | src/main/java/com/cinema/domain/reservation/service/ReservationPaymentService.java:167-171 | one cancel command per seat of the reservation |
| ReservationPayments.LinesFor | src/main/java/com/cinema/domain/reservation/service/ReservationPaymentService.java:107-115 | one line per requested seat, in order, priced from the server-computed map |
| ReservationPayments.AddLines | src/main/java/com/cinema/domain/reservation/service/ReservationPaymentService.java:107-115 | the lines are appended, nothing but the lines and totals changes, and the totals invariant holds |
| ReservationPayments.LinesSumToTotal | src/main/java/com/cinema/domain/reservation/service/ReservationPaymentService.java:107-115 | the lines' prices add up to the server-computed total |
| ReservationPayments.StorePayment | src/main/java/com/cinema/domain/reservation/service/ReservationPaymentService.java:124-126 | after `save` the payment is found under its id and every other payment is unchanged |
| ReservationPayments.SuccessPaymentIndex | src/main/java/com/cinema/domain/reservation/service/ReservationPaymentService.java:162 | the first payment of the reservation in SUCCESS, or none |
| ReservationPayments.BookedReservation | src/main/java/com/cinema/domain/reservation/service/ReservationPaymentService.java:93-134 | the stored reservation is CONFIRMED, has no hold token, one line per requested seat at its price, and totals equal to the seat count and the computed total |
| ReservationPayments.PaidPayment | src/main/java/com/cinema/domain/reservation/service/ReservationPaymentService.java:119-126 | the payment is SUCCESS for the computed amount, with the mock PG id and paid at `now` |
| ReservationPayments.ProcessPaymentStep | src/main/java/com/cinema/domain/reservation/service/ReservationPaymentService.java:64-146 | MEMBER_NOT_FOUND, SCREENING_NOT_FOUND, SCREENING_NOT_BOOKABLE in that order; any error leaves every table as it was |
| ReservationPayments.StartOrdersSpec | src/main/java/com/cinema/domain/reservation/service/ReservationPaymentService.java:76-79 | starting payment completes exactly on seats that are HOLD with the presented tokens, and leaves them PAYMENT_PENDING |
| ReservationPayments.ReserveOrdersSpec | src/main/java/com/cinema/domain/reservation/service/ReservationPaymentService.java:128-132 | reserving seats that are PAYMENT_PENDING under their tokens completes, each becoming RESERVED for the member with the hold cleared |
| ReservationPayments.ReleaseOrdersComplete | src/main/java/com/cinema/domain/reservation/service/ReservationPaymentService.java:84-91 | the payment-failure releases always complete on seats that exist |
| ReservationPayments.BookStepSucceeds | src/main/java/com/cinema/domain/reservation/service/ReservationPaymentService.java:93-134 | once every seat is PAYMENT_PENDING under its token, recording the booking cannot fail |
| ReservationPayments.ProcessPaymentSucceedsIff | src/main/java/com/cinema/domain/reservation/service/ReservationPaymentService.java:64-146 | payment succeeds exactly when member and screening exist, the screening is bookable, the seats can be priced, every seat is HOLD under the presented token, and the gateway approves the computed total |
| ReservationPayments.DeclinedPaymentChangesNothing | src/main/java/com/cinema/domain/reservation/service/ReservationPaymentService.java:81-91 | a declined payment raises PAYMENT_FAILED and, the transaction rolling back, leaves every table as it was |
| ReservationPayments.MockGatewayPaymentSucceedsIff | src/main/java/com/cinema/domain/reservation/service/ReservationPaymentService.java:81-82 | with the mock gateway payment succeeds exactly when the checks pass and the holds are presented |
| ReservationPayments.PaidSeatsAreReserved | src/main/java/com/cinema/domain/reservation/service/ReservationPaymentService.java:128-132 | a successful payment reserves every requested seat for the member with the hold cleared, and touches no other seat |
| ReservationPayments.StartThenReserve | src/main/java/com/cinema/domain/reservation/service/ReservationPaymentService.java:76-132 | starting payment and then reserving leaves each requested seat RESERVED for the member and every other seat as it was |
| ReservationPayments.PaidReservationAndPayment | src/main/java/com/cinema/domain/reservation/service/ReservationPaymentService.java:93-146 | a successful payment stores one CONFIRMED reservation priced seat by seat, one SUCCESS payment of exactly its total, and answers with its id, number, seat count and amount |
| ReservationPayments.NewPaymentAppendedOnce | src/main/java/com/cinema/domain/reservation/service/ReservationPaymentService.java:119-126 | saving the new payment and then saving it again as paid appends exactly one row, the paid one |
| ReservationPayments.CancelReservationStep | src/main/java/com/cinema/domain/reservation/service/ReservationPaymentService.java:152-174 | RESERVATION_NOT_FOUND, ACCESS_DENIED for another member's booking, RESERVATION_CANNOT_CANCEL unless CONFIRMED; any failure leaves every table as it was |
| ReservationPayments.CancelReservationSpec | src/main/java/com/cinema/domain/reservation/service/ReservationPaymentService.java:152-174 | cancelling one's own confirmed booking on distinct seats succeeds exactly when every seat is RESERVED; then the reservation and its first SUCCESS payment are CANCELLED and every seat of it is CANCELLED, nothing else changing |
| ReservationPayments.CancelOrdersSpec | src/main/java/com/cinema/domain/reservation/service/ReservationPaymentService.java:167-171 | the cancel loop completes exactly when every seat is RESERVED; then each becomes CANCELLED and nothing else changes |
| ReservationPayments.PaymentLeavesCancellableBooking | src/main/java/com/cinema/domain/reservation/service/ReservationPaymentService.java:64-146 | right after a payment the booking is the member's own, CONFIRMED, on distinct seats all RESERVED for the member |
| ReservationPayments.PaymentAppendsFirstSuccess | src/main/java/com/cinema/domain/reservation/service/ReservationPaymentService.java:119-126 | with fresh ids the payment appends one row, the reservation's first SUCCESS row |
| ReservationPayments.PayThenCancel | src/main/java/com/cinema/domain/reservation/service/ReservationPaymentService.java:64-174 | right after a successful payment the payer can cancel: every booked seat, the reservation and the new payment end CANCELLED |
| ReservationPayments.AddSeats | src/main/java/com/cinema/domain/reservation/service/ReservationPaymentService.java:107-115 | the `forEach` leaves the reservation as `AddLines` of the priced lines |
| ReservationPayments.ReservationPaymentService.constructor | src/main/java/com/cinema/domain/reservation/service/ReservationPaymentService.java:64-174 | the service starts with empty reservation and payment tables over the given seat table |
| ReservationPayments.ReservationPaymentService.ApplySeatOrder | src/main/java/com/cinema/domain/reservation/service/ReservationPaymentService.java:77-78 | outcome and seat table follow `ApplyOrder`; a failure leaves the table alone |
| ReservationPayments.ReservationPaymentService.ApplySeatOrders | src/main/java/com/cinema/domain/reservation/service/ReservationPaymentService.java:76-79 | outcome and seat table follow `ApplyOrders` |
| ReservationPayments.ReservationPaymentService.Rollback | src/main/java/com/cinema/domain/reservation/service/ReservationPaymentService.java:63 | the transaction's rollback returns every table to the snapshot |
| ReservationPayments.ReservationPaymentService.ProcessPayment | src/main/java/com/cinema/domain/reservation/service/ReservationPaymentService.java:64-146 | answer and new tables are `ProcessPaymentStep` of the old tables |
| ReservationPayments.ReservationPaymentService.PayPriced | src/main/java/com/cinema/domain/reservation/service/ReservationPaymentService.java:76-146 | answer and new tables are `PayPricedStep` of the old tables |
| ReservationPayments.ReservationPaymentService.Book | src/main/java/com/cinema/domain/reservation/service/ReservationPaymentService.java:93-146 | answer and new tables are `BookStep` of the snapshot and the started seats |
| ReservationPayments.ReservationPaymentService.SavePayment | src/main/java/com/cinema/domain/reservation/service/ReservationPaymentService.java:119-126 | the payment table is the pending payment stored and then the paid one stored |
| ReservationPayments.ReservationPaymentService.CancelReservation | src/main/java/com/cinema/domain/reservation/service/ReservationPaymentService.java:152-174 | outcome and new tables are `CancelReservationStep` of the old tables |
| HoldExpiry.GroupingKeys | src/main/java/com/cinema/domain/screening/scheduler/HoldExpiryScheduler.java:43-76 | each affected screening is listed once, in discovery order, and exactly the affected screenings get a group |
| HoldExpiry.GroupingValues | src/main/java/com/cinema/domain/screening/scheduler/HoldExpiryScheduler.java:43-76 | each group holds its screening's expired seat ids in order |
| HoldExpiry.GroupingSpec | src/main/java/com/cinema/domain/screening/scheduler/HoldExpiryScheduler.java:43-76 | the grouping lists each affected screening once, in discovery order, each with the non-empty list of its own expired seat ids; no other screening gets a group |
| HoldExpiry.DeleteEachSpec | src/main/java/com/cinema/domain/screening/scheduler/HoldExpiryScheduler.java:43-76 | every expired seat's hold entry is gone from the side the store call reached; the layout cache is untouched |
| HoldExpiry.InvalidateEachSpec | src/main/java/com/cinema/domain/screening/scheduler/HoldExpiryScheduler.java:43-76 | invalidation touches only the layout cache, and drops every affected screening's layout when the store answers |
| HoldExpiry.PublishEachSpec | src/main/java/com/cinema/domain/screening/scheduler/HoldExpiryScheduler.java:43-76 | every event sent belongs to one affected screening, carries its event id and the seat ids of its group |
| HoldExpiry.SweepSpec | src/main/java/com/cinema/domain/screening/scheduler/HoldExpiryScheduler.java:43-76 | after a sweep no expired hold is left in the table, every expired seat's hold entry is deleted, every affected layout is dropped when the store answers, and each event names one screening's own expired seats |
| HoldExpiry.HoldExpiryScheduler.constructor | src/main/java/com/cinema/domain/screening/scheduler/HoldExpiryScheduler.java:43-76 | the scheduler is built over the seat table, the hold store, the layout cache and the broadcaster |
| HoldExpiry.HoldExpiryScheduler.ReleaseExpiredHolds | src/main/java/com/cinema/domain/screening/scheduler/HoldExpiryScheduler.java:43-76 | the new table, store, subscribers and events sent are `SweepStep` of the old state |
| HoldExpiry.HoldExpiryScheduler.GroupAndDelete | src/main/java/com/cinema/domain/screening/scheduler/HoldExpiryScheduler.java:43-76 | returns the grouping of the expired seats and deletes each one's hold entry |
| HoldExpiry.HoldExpiryScheduler.InvalidateAndPublish | src/main/java/com/cinema/domain/screening/scheduler/HoldExpiryScheduler.java:43-76 | invalidates every affected layout and publishes one event per affected screening |
| SeatSse.RegisterStep | src/main/java/com/cinema/infrastructure/sse/SeatSseBroadcaster.java:47-59 | the emitter is appended to its screening's list; every other screening is unchanged |
| SeatSse.RemoveFirst | src/main/java/com/cinema/infrastructure/sse/SeatSseBroadcaster.java:61-69 | `List.remove` drops exactly one occurrence of the emitter when there is one, and nothing otherwise |
| SeatSse.UnregisterSpec | src/main/java/com/cinema/infrastructure/sse/SeatSseBroadcaster.java:61-69 | unregistering removes one occurrence of the emitter, drops the screening when its list becomes empty, and leaves every other screening alone |
| SeatSse.UnregisterEachIsRemoveEach | src/main/java/com/cinema/infrastructure/sse/SeatSseBroadcaster.java:72-99 | unregistering a list of emitters one by one is removing each from the list and then storing what is left |
| SeatSse.RemoveFailedKeepsSucceeded | src/main/java/com/cinema/infrastructure/sse/SeatSseBroadcaster.java:72-99 | removing the emitters whose send failed leaves exactly those whose send succeeded, in order |
| SeatSse.PublishSpec | src/main/java/com/cinema/infrastructure/sse/SeatSseBroadcaster.java:72-99 | a publish without a screening, seats or subscribers sends nothing and changes nothing; otherwise it sends the event to every subscriber in order, keeps exactly the emitters whose send succeeded, and leaves every other screening alone |
| SeatSse.PublishDropsExactlyTheFailed | src/main/java/com/cinema/infrastructure/sse/SeatSseBroadcaster.java:72-99 | after a publish a subscriber is still registered exactly when its send succeeded |
| SeatSse.SendToEach | src/main/java/com/cinema/infrastructure/sse/SeatSseBroadcaster.java:80-95 | the send loop makes one delivery per subscriber and collects exactly the emitters whose send failed |
| SeatSse.UnregisterKeepsNumbering | src/main/java/com/cinema/infrastructure/sse/SeatSseBroadcaster.java:61-69 | unregistering keeps every registered emitter below the next emitter number |
| SeatSse.SeatSseBroadcaster.constructor | src/main/java/com/cinema/infrastructure/sse/SeatSseBroadcaster.java:39-41 | the broadcaster starts with no subscribers |
| SeatSse.SeatSseBroadcaster.Register | src/main/java/com/cinema/infrastructure/sse/SeatSseBroadcaster.java:47-59 | a fresh emitter, registered nowhere before, is appended to the screening's list |
| SeatSse.SeatSseBroadcaster.Unregister | src/main/java/com/cinema/infrastructure/sse/SeatSseBroadcaster.java:61-69 | the subscribers become `UnregisterStep` of the old subscribers |
| SeatSse.SeatSseBroadcaster.PublishSeatStatusChanged | src/main/java/com/cinema/infrastructure/sse/SeatSseBroadcaster.java:72-99 | the events sent and the new subscribers are `PublishStep` of the old subscribers |
| AdminScreenings.CreateSpec | src/main/java/com/cinema/domain/admin/service/AdminScreeningService.java:41-66 | MOVIE_NOT_FOUND, then SCREEN_NOT_FOUND, then a refusal on any overlap; otherwise one SCHEDULED row is appended, ending after the movie's running time |
| AdminScreenings.CreatePreservesInvariants | src/main/java/com/cinema/domain/admin/service/AdminScreeningService.java:41-66 | a created screening keeps the table free of clashes on a screen and, with a fresh id, keeps ids unique |
| AdminScreenings.UpdateSpec | src/main/java/com/cinema/domain/admin/service/AdminScreeningService.java:72-95 | SCREENING_NOT_FOUND, MOVIE_NOT_FOUND, SCREEN_NOT_FOUND in that order, then a refusal on an overlap with another screening; otherwise only that row is rewritten, keeping its id and status |
| AdminScreenings.UpdatePreservesInvariants | src/main/java/com/cinema/domain/admin/service/AdminScreeningService.java:72-95 | an update keeps the table free of clashes and ids unique |
| AdminScreenings.UpdateWithSameTimesSucceeds | src/main/java/com/cinema/domain/admin/service/AdminScreeningService.java:72-95 | saving a live screening with its own movie, screen and start succeeds and changes nothing, because the overlap check leaves the screening itself out |
| AdminScreenings.DeleteSpec | src/main/java/com/cinema/domain/admin/service/AdminScreeningService.java:101-106 | SCREENING_NOT_FOUND for an unknown id; otherwise exactly the other rows are kept, in order |
| AdminScreenings.DeletePreservesInvariants | src/main/java/com/cinema/domain/admin/service/AdminScreeningService.java:101-106 | deleting keeps the table free of clashes and ids unique |
| AdminScreenings.AdminScreeningService.constructor | src/main/java/com/cinema/domain/admin/service/AdminScreeningService.java:41-142 | the service starts with an empty table over the given catalogue |
| AdminScreenings.AdminScreeningService.CreateScreening | src/main/java/com/cinema/domain/admin/service/AdminScreeningService.java:41-66 | answer and new table are `CreateStep` of the old table |
| AdminScreenings.AdminScreeningService.UpdateScreening | src/main/java/com/cinema/domain/admin/service/AdminScreeningService.java:72-95 | outcome and new table are `UpdateStep` of the old table |
| AdminScreenings.AdminScreeningService.DeleteScreening | src/main/java/com/cinema/domain/admin/service/AdminScreeningService.java:101-106 | outcome and new table are `DeleteStep` of the old table |
| AdminScreenings.AdminScreeningService.GetScreening | src/main/java/com/cinema/domain/admin/service/AdminScreeningService.java:119-124 | finds a screening with the id exactly when one exists; otherwise SCREENING_NOT_FOUND |
| AdminScreenings.AdminScreeningService.GetScreeningsByMovie | src/main/java/com/cinema/domain/admin/service/AdminScreeningService.java:129-133 | exactly the screenings of the movie, in table order |
| AdminScreenings.AdminScreeningService.GetScreeningsByScreen | src/main/java/com/cinema/domain/admin/service/AdminScreeningService.java:138-142 | exactly the screenings on the screen, in table order |
| AdminStats.TotalAmountOfFilter | src/main/java/com/cinema/domain/admin/service/AdminStatsService.java:49-71 | summing the amounts of the filtered payments is summing the amounts of the payments that pass the filter |
| AdminStats.GetKpi | src/main/java/com/cinema/domain/admin/service/AdminStatsService.java:49-71 | today's sales are the total of the SUCCESS payments paid today; today's bookings count the CONFIRMED reservations created today; the no-show amount is 0 |
| AdminStats.DayOfShift | src/main/java/com/cinema/domain/admin/service/AdminStatsService.java:76-106 | moving an instant back by whole days moves its day number back by as many |
| AdminStats.PaidWindowOnDay | src/main/java/com/cinema/domain/admin/service/AdminStatsService.java:76-106 | inside the trend window, "fetched and paid on a day" is "paid on that day by now" |
| AdminStats.ConfirmedWindowOnDay | src/main/java/com/cinema/domain/admin/service/AdminStatsService.java:76-106 | the same for confirmed reservations |
| AdminStats.SalesOnDay | src/main/java/com/cinema/domain/admin/service/AdminStatsService.java:76-106 | the grouped sales of a trend day are the total of that day's SUCCESS payments |
| AdminStats.BookingsOnDay | src/main/java/com/cinema/domain/admin/service/AdminStatsService.java:76-106 | the grouped bookings of a trend day count that day's CONFIRMED reservations |
| AdminStats.TrendItemReportsDay | src/main/java/com/cinema/domain/admin/service/AdminStatsService.java:76-106 | looking a day up in the two grouped maps, 0 when absent, reports that day's sales and bookings |
| AdminStats.GetDailyTrend | src/main/java/com/cinema/domain/admin/service/AdminStatsService.java:76-106 | one item per day (days when 1 to 365, else 30), oldest first and ending today, each with that day's sales and bookings |
| AdminStats.TopLimit | src/main/java/com/cinema/domain/admin/service/AdminStatsService.java:111-145 | the limit used lies between 1 and 20 (5 when the request is outside that range) |
| AdminStats.InsertByCount | src/main/java/com/cinema/domain/admin/service/AdminStatsService.java:111-145 | one insertion step adds exactly the item |
| AdminStats.SortByCountDesc | src/main/java/com/cinema/domain/admin/service/AdminStatsService.java:111-145 | the sort keeps the length and the items |
| AdminStats.InsertByCountSorted | src/main/java/com/cinema/domain/admin/service/AdminStatsService.java:111-145 | inserting into a list ordered by non-increasing count keeps it ordered |
| AdminStats.InsertByCountDistinct | src/main/java/com/cinema/domain/admin/service/AdminStatsService.java:111-145 | inserting a movie not yet listed keeps movies unrepeated |
| AdminStats.SortByCountDescSpec | src/main/java/com/cinema/domain/admin/service/AdminStatsService.java:111-145 | the sort orders by non-increasing count and keeps a list without repeated movies so |
| AdminStats.CountsByMovieGet | src/main/java/com/cinema/domain/admin/service/AdminStatsService.java:111-145 | a movie's entry in the counts map, 0 when absent, is the number of today's confirmed bookings for today's screenings of it |
| AdminStats.LimitedSpec | src/main/java/com/cinema/domain/admin/service/AdminStatsService.java:111-145 | `limit(n)` of a sorted list keeps at most n items, sorted and unrepeated, and drops an item only when the kept ones all count at least as much |
| AdminStats.TodayItemsSpec | src/main/java/com/cinema/domain/admin/service/AdminStatsService.java:111-145 | today's items list each movie shown today exactly once, with its title and its count |
| AdminStats.TodayItemAt | src/main/java/com/cinema/domain/admin/service/AdminStatsService.java:111-145 | each of today's items is a movie shown today, with its title and its count |
| AdminStats.TopMoviesShape | src/main/java/com/cinema/domain/admin/service/AdminStatsService.java:111-145 | the ranking has at most the limit, is ordered by non-increasing count, and lists each movie once |
| AdminStats.TopMoviesItems | src/main/java/com/cinema/domain/admin/service/AdminStatsService.java:111-145 | each ranked item is a movie shown today, with its title and its count |
| AdminStats.RankCut | src/main/java/com/cinema/domain/admin/service/AdminStatsService.java:111-145 | an item is ranked, or the ranking is full of items counted at least as high |
| AdminStats.TopMoviesCut | src/main/java/com/cinema/domain/admin/service/AdminStatsService.java:111-145 | a movie shown today is ranked, or the ranking is full of movies booked at least as often |
| AdminStats.TodayItemOf | src/main/java/com/cinema/domain/admin/service/AdminStatsService.java:111-145 | the movie of each of today's screenings has an item with its count |
| AdminStats.TopMoviesSpec | src/main/java/com/cinema/domain/admin/service/AdminStatsService.java:111-145 | no screenings today gives an empty ranking; otherwise at most the limit of movies shown today, each once, by non-increasing count of today's confirmed bookings, and a movie is left out only when the list is full of movies booked at least as often |
| AdminReservations.GetReservations | src/main/java/com/cinema/domain/admin/service/AdminReservationService.java:46-80 | the total reported is the number of items listed, at most the page size |
| AdminReservations.GetReservationsSpec | src/main/java/com/cinema/domain/admin/service/AdminReservationService.java:46-80 | the listing keeps, in page order, the item of every fetched reservation created on a day between the dates and equal to each filter present, and of no other |
| AdminReservations.NoFilterListsPage | src/main/java/com/cinema/domain/admin/service/AdminReservationService.java:46-80 | with no filter the whole page is listed |
| AdminReservations.CancelledIsStatusFiltered | src/main/java/com/cinema/domain/admin/service/AdminReservationService.java:95-100 | the cancelled listing is the date-filtered listing with its non-cancelled items removed |
| AdminReservations.AfterLastDashOfName | src/main/java/com/cinema/domain/admin/service/AdminReservationService.java:139 | the part of a seat name after its last dash is the seat number |
| AdminReservations.SeatDisplayNameInjective | src/main/java/com/cinema/domain/admin/service/AdminReservationService.java:139 | two seats with non-negative numbers share a display name exactly when row and number are equal |
| AdminReservations.DashNameInjective | src/main/java/com/cinema/domain/admin/service/AdminReservationService.java:139 | names with a dash before dash-free suffixes are equal only when both parts are |
| AdminReservations.ToDetail | src/main/java/com/cinema/domain/admin/service/AdminReservationService.java:128-158 | one seat item per reserved seat, in order, with its id, its price and the name `row-number` |
| AdminReservations.FindView | src/main/java/com/cinema/domain/admin/service/AdminReservationService.java:85-90 | finds a reservation with the id exactly when one exists |
| AdminReservations.GetReservationDetail | src/main/java/com/cinema/domain/admin/service/AdminReservationService.java:85-90 | RESERVATION_NOT_FOUND exactly for an unknown id; otherwise the detail of that reservation |
| AdminPayments.GetPayments | src/main/java/com/cinema/domain/admin/service/AdminPaymentService.java:41-71 | the total reported is the number of items listed, at most the page size |
| AdminPayments.GetPaymentsSpec | src/main/java/com/cinema/domain/admin/service/AdminPaymentService.java:41-71 | the listing keeps, in page order, the item of every fetched payment created on a day between the dates, with the given status and the given member's reservation, and of no other |
| AdminPayments.NoFilterListsPage | src/main/java/com/cinema/domain/admin/service/AdminPaymentService.java:41-71 | with no filter the whole page is listed |
| AdminPayments.CancelledIsStatusFiltered | src/main/java/com/cinema/domain/admin/service/AdminPaymentService.java:86-91 | the cancelled listing is the date-filtered listing with its non-cancelled items removed |
| AdminPayments.FindView | src/main/java/com/cinema/domain/admin/service/AdminPaymentService.java:76-81 | finds a payment with the id exactly when one exists |
| AdminPayments.GetPaymentDetail | src/main/java/com/cinema/domain/admin/service/AdminPaymentService.java:76-81 | PAYMENT_NOT_FOUND exactly for an unknown id; otherwise that payment's list item |
| JoinedRows.InDateRangeMeansDays | src/main/java/com/cinema/domain/admin/service/AdminReservationService.java:55-56 | the corrected date filter keeps exactly the instants whose day lies between the two dates |
| JoinedRows.LastSecondDropped | src/main/java/com/cinema/domain/admin/service/AdminReservationService.java:56 | an instant half a second before midnight of the end date is on that day, yet the filter as written drops it |
| JoinedRows.DateRangesDifferInLastSecond | src/main/java/com/cinema/domain/admin/service/AdminPaymentService.java:49-60 | the two filters disagree only on the final, fractional second of the end date |
| JoinedRows.FirstIndex | src/main/java/com/cinema/domain/home/service/HomeService.java:57-62 | the position of the first screening of the movie, or none |
| JoinedRows.HasMovieAppend | src/main/java/com/cinema/domain/home/service/HomeService.java:57-62 | appending a movie adds exactly its id |
| JoinedRows.FirstIndexExtend | src/main/java/com/cinema/domain/home/service/HomeService.java:57-62 | appending a screening moves no first screening of a movie already seen |
| JoinedRows.FirstMoviesDistinct | src/main/java/com/cinema/domain/home/service/HomeService.java:57-63 | the insertion-ordered map keeps one movie per id |
| JoinedRows.FirstMoviesComplete | src/main/java/com/cinema/domain/home/service/HomeService.java:57-63 | every movie of the screening list is kept |
| JoinedRows.FirstMoviesInFirstOrder | src/main/java/com/cinema/domain/home/service/HomeService.java:57-63 | each kept movie is the one of its first screening, and the kept movies follow the order of those first screenings |
| JoinedRows.FirstOfEachExtend | src/main/java/com/cinema/domain/home/service/HomeService.java:57-63 | appending a screening keeps the movies already kept first |
| JoinedRows.FirstOfEachExtendNew | src/main/java/com/cinema/domain/home/service/HomeService.java:57-63 | a screening of a movie not seen before adds that movie last |
| Home.GetUpcomingMovies | src/main/java/com/cinema/domain/home/service/HomeService.java:53-64 | the loop returns one movie per id, every movie of the window, in the order of each movie's first screening |
| ScreeningQueries.FindOverlapping | src/main/java/com/cinema/domain/screening/repository/ScreeningRepositoryImpl.java:92-102 | exactly the non-cancelled screenings on the screen that start before the end and end after the start, in table order; for proper intervals, exactly those sharing an instant with the request |
| ScreeningQueries.OverlapMeansSharedInstant | src/main/java/com/cinema/domain/screening/repository/ScreeningRepositoryImpl.java:98-99 | two non-empty half-open intervals overlap exactly when some instant lies in both |
| ScreeningQueries.OverlapIsSymmetric | src/main/java/com/cinema/domain/screening/repository/ScreeningRepositoryImpl.java:98-99 | whether two intervals clash does not depend on the order they are asked in |
| ScreeningQueries.BackToBackDoNotOverlap | src/main/java/com/cinema/domain/screening/repository/ScreeningRepositoryImpl.java:98-99 | a screening that ends exactly when another starts does not clash with it |
| ScreeningQueries.FindByDateAndStatus | src/main/java/com/cinema/domain/screening/repository/ScreeningRepositoryImpl.java:40-50 | exactly the screenings with the status that start on the calendar day of the date, in table order |
| ScreeningQueries.FindByMovieIdAndDateAndStatus | src/main/java/com/cinema/domain/screening/repository/ScreeningRepositoryImpl.java:53-64 | the same rows restricted to the movie |
| ScreeningQueries.FindById | src/main/java/com/cinema/domain/screening/repository/ScreeningRepositoryImpl.java:67-89 | finds a screening with the id exactly when one exists |
| LoginBruteForce.RecordFailureCounts | src/main/java/com/cinema/global/security/LoginBruteForceService.java:42-51 | a failure recorded at an instant raises by exactly one the id's count of failures within the lock window at any later instant that still covers it: pruning never drops a failure isLocked would count |
| LoginBruteForce.RecordAllCount | src/main/java/com/cinema/global/security/LoginBruteForceService.java:42-51 | failures recorded at instants inside the window raise the id's recent count by their number and leave the id present |
| LoginBruteForce.FailuresInWindowLock | src/main/java/com/cinema/global/security/LoginBruteForceService.java:42-64 | once at least maxFailedAttempts failures fall in the lock window before an instant, the id is locked at that instant, whatever came before |
| LoginBruteForce.RecordKeepsTimeOrder | src/main/java/com/cinema/global/security/LoginBruteForceService.java:42-51 | recording at a clock reading no earlier than the last keeps every deque in time order with no entry after the clock |
| LoginBruteForce.LoginBruteForceService.constructor | src/main/java/com/cinema/global/security/LoginBruteForceService.java:26-33 | a new service holds no failures and is configured with the given attempt limit and lock minutes |
| LoginBruteForce.LoginBruteForceService.IsLocked | src/main/java/com/cinema/global/security/LoginBruteForceService.java:57-64 | the loop's verdict is true exactly when the id has at least maxFailedAttempts failures at or after now minus the lock window; an unknown id is not locked |
| LoginBruteForce.LoginBruteForceService.CheckLocked | src/main/java/com/cinema/global/security/LoginBruteForceService.java:35-40 | fails with INVALID_PASSWORD, the same code as a wrong password, exactly when the id is locked |
| LoginBruteForce.LoginBruteForceService.RecordFailure | src/main/java/com/cinema/global/security/LoginBruteForceService.java:42-51 | the id's deque becomes the pruned deque followed by now, every other id is unchanged, and the time order is kept |
| LoginBruteForce.LoginBruteForceService.ClearSuccess | src/main/java/com/cinema/global/security/LoginBruteForceService.java:53-55 | the id's failures are removed and it is not locked at any instant afterwards |
| SlidingWindow.Pruned | src/main/java/com/cinema/global/security/AuthRateLimitFilter.java:76-79 | the pruned deque is a suffix of the original, every dropped entry is older than the window and the first kept one is not |
| SlidingWindow.PrunedIsRecent | src/main/java/com/cinema/global/security/AuthRateLimitFilter.java:76-79 | on a sorted deque pruning keeps exactly the entries within the window, in order |
| SlidingWindow.DroppedAreOld | src/main/java/com/cinema/global/security/LoginBruteForceService.java:46-48 | no dropped entry is within the window |
| SlidingWindow.KeptAreRecent | src/main/java/com/cinema/global/security/LoginBruteForceService.java:46-48 | on a sorted deque every kept entry is within the window |
| SlidingWindow.PrunedKeepsRecentCount | src/main/java/com/cinema/global/security/LoginBruteForceService.java:46-62 | pruning at an earlier or equal instant never lowers the count that isLocked takes later |
| SlidingWindow.PrunedAppendSorted | src/main/java/com/cinema/global/security/AuthRateLimitFilter.java:77-87 | pruning and appending the current instant keeps a sorted deque sorted and bounded by that instant |
| AuthRateLimit.Classify | src/main/java/com/cinema/global/security/AuthRateLimitFilter.java:60-72 | a path is the login endpoint when it contains /members/login, signup when it contains /members/signup but not login, refresh when it contains /members/refresh but neither of the others, and no endpoint otherwise |
| AuthRateLimit.EndpointStepSpec | src/main/java/com/cinema/global/security/AuthRateLimitFilter.java:74-90 | a request is refused exactly when its client already holds the limit of entries within the last minute after pruning; a refused request is not recorded, an admitted one is appended; the other endpoints' stores are untouched |
| AuthRateLimit.DoFilterSpec | src/main/java/com/cinema/global/security/AuthRateLimitFilter.java:47-91 | a request that is not a POST in some letter case, or is on another path, passes with the stores untouched; otherwise it goes through its endpoint's window under the client key |
| AuthRateLimit.EndpointStepKeepsBound | src/main/java/com/cinema/global/security/AuthRateLimitFilter.java:76-88 | no client's deque ever holds more entries than its endpoint's limit |
| AuthRateLimit.DoFilterKeepsBound | src/main/java/com/cinema/global/security/AuthRateLimitFilter.java:47-91 | the filter keeps every deque within its endpoint's limit |
| AuthRateLimit.AuthRateLimitFilter.constructor | src/main/java/com/cinema/global/security/AuthRateLimitFilter.java:33-44 | a new filter has three empty stores and the given per-minute limits |
| AuthRateLimit.AuthRateLimitFilter.DoFilter | src/main/java/com/cinema/global/security/AuthRateLimitFilter.java:47-91 | the verdict and the new stores are those of the filter step on the old stores |
| ApiRateLimit.TrailingDigitCount | src/main/java/com/cinema/global/security/ApiRateLimitFilter.java:88 | counts the maximal run of digits at the end of a string |
| ApiRateLimit.TrailingDigitCountAfter | src/main/java/com/cinema/global/security/ApiRateLimitFilter.java:88 | digits placed after a non-digit are counted exactly |
| ApiRateLimit.MatchesHoldOfParts | src/main/java/com/cinema/global/security/ApiRateLimitFilter.java:88 | every path of the form any-line/api/screenings/digits/seats/digits/hold is matched |
| ApiRateLimit.HoldPatternOfMatch | src/main/java/com/cinema/global/security/ApiRateLimitFilter.java:88 | every matched path has that form |
| ApiRateLimit.MatchesHoldSpec | src/main/java/com/cinema/global/security/ApiRateLimitFilter.java:88 | the right-to-left matcher accepts exactly the paths the regular expression `.*/api/screenings/\d+/seats/\d+/hold` matches in full |
| ApiRateLimit.IsReservationPath | src/main/java/com/cinema/global/security/ApiRateLimitFilter.java:78-92 | a booking request is a POST in some letter case to /api/reservations/pay, to a /api/reservations/ path ending in /cancel, to a hold path, or to a /api/screenings path containing /holds/release; nothing else is |
| ApiRateLimit.RateRuleSpec | src/main/java/com/cinema/global/security/ApiRateLimitFilter.java:48-62 | an admin path is counted under admin:ip: with the admin limit whatever its method, even when it is also a booking request; a booking request elsewhere is counted under reservation:ip: with the reservation limit; nothing else is counted |
| ApiRateLimit.MissingMethodIsNotBooking | src/main/java/com/cinema/global/security/ApiRateLimitFilter.java:49 | a request with no method, taken as the empty string, is never a booking request |
| ApiRateLimit.ApiFilterSpec | src/main/java/com/cinema/global/security/ApiRateLimitFilter.java:45-76 | an uncounted request or one with a non-positive limit passes with the counters untouched; a counted one is refused exactly when tryAcquire with a 60-second window refuses it, and the counters change as that call changes them |
| ApiRateLimit.RateKeysSeparate | src/main/java/com/cinema/global/security/ApiRateLimitFilter.java:57-60 | clients with different keys never share a counter and admin and booking counters never meet |
| ApiRateLimit.ApiRateLimitFilter.constructor | src/main/java/com/cinema/global/security/ApiRateLimitFilter.java:36-42 | a new filter uses the given limiter and per-minute limits |
| ApiRateLimit.ApiRateLimitFilter.DoFilter | src/main/java/com/cinema/global/security/ApiRateLimitFilter.java:45-76 | the verdict and the limiter's new counters are those of the filter step on the old counters |
| RedisRateLimit.Incremented | src/main/java/com/cinema/infrastructure/redis/RedisRateLimitService.java:37 | INCR yields a count of at least one unless the counter was live |
| RedisRateLimit.TryAcquireSpec | src/main/java/com/cinema/infrastructure/redis/RedisRateLimitService.java:34-53 | a failed increment allows the call and changes nothing; otherwise only the rate: key changes, its count goes up by one or restarts at 1, its expiry is set to the window exactly when it restarts and the expire call succeeds, and the call is allowed exactly when the new count is within the limit (or the expire call failed on a fresh counter) |
| RedisRateLimit.AcquireAll | src/main/java/com/cinema/infrastructure/redis/RedisRateLimitService.java:34-53 | one verdict per call |
| RedisRateLimit.FirstLimitCallsAllowed | src/main/java/com/cinema/infrastructure/redis/RedisRateLimitService.java:34-53 | starting from an expired or absent counter, of the calls made within one window exactly the first limit are allowed |
| RedisRateLimit.InWindowCounts | src/main/java/com/cinema/infrastructure/redis/RedisRateLimitService.java:34-53 | with a live counter at n, the i-th later call within its expiry is allowed exactly when n plus i is below the limit |
| RedisRateLimit.CounterWithoutExpiryNeverResets | src/main/java/com/cinema/infrastructure/redis/RedisRateLimitService.java:41-44 | a counter whose expiry was never set keeps rising, so once it reaches the limit every later call for the key is refused |
| RedisRateLimit.RedisRateLimitService.constructor | src/main/java/com/cinema/infrastructure/redis/RedisRateLimitService.java:34-35 | a new service has no counters |
| RedisRateLimit.RedisRateLimitService.TryAcquire | src/main/java/com/cinema/infrastructure/redis/RedisRateLimitService.java:34-53 | the verdict and the new counters are those of the tryAcquire step on the old counters |
| ForwardedFor.Pieces | src/main/java/com/cinema/global/security/AuthRateLimitFilter.java:96 | a split always has at least one piece |
| ForwardedFor.BeforeFirst | src/main/java/com/cinema/global/security/AuthRateLimitFilter.java:96 | the longest prefix without the separator, followed in the string by the separator when shorter |
| ForwardedFor.FirstPieceIsBeforeFirst | src/main/java/com/cinema/global/security/AuthRateLimitFilter.java:96 | the first piece of a split is the text before the first separator |
| ForwardedFor.PiecesAllEmpty | src/main/java/com/cinema/global/security/AuthRateLimitFilter.java:96 | all pieces are empty exactly when the string holds only separators |
| ForwardedFor.DropTrailingEmpty | src/main/java/com/cinema/global/security/AuthRateLimitFilter.java:96 | dropping trailing empty pieces keeps a prefix and leaves nothing exactly when every piece is empty |
| ForwardedFor.JavaSplitSpec | src/main/java/com/cinema/global/security/AuthRateLimitFilter.java:96 | Java's split has no entry exactly when the string is nothing but separators, and otherwise its first entry is the text before the first separator |
| ForwardedFor.CommasOnlyHeaderThrows | src/main/java/com/cinema/global/security/ApiRateLimitFilter.java:106-107 | a header of commas only is not blank, yet split(",") has no first entry, so the lookup throws |
| ForwardedFor.ClientKeySpec | src/main/java/com/cinema/global/security/AuthRateLimitFilter.java:93-99 | the key is the trimmed text before the first comma of a non-blank header holding more than commas, else the remote address, and it agrees with the code as written wherever that does not throw |
| ExceptionMessages.ExtractAdditionalMessage | src/main/java/com/cinema/global/exception/GlobalExceptionHandler.java:197-205 | the extra detail is non-empty only for a present message that strictly extends the code's base message, and is then a piece of the message after the base, no longer than what follows the base; otherwise it is empty |
| ExceptionMessages.TrimStartSkips | src/main/java/com/cinema/global/exception/GlobalExceptionHandler.java:202 | trimming skips leading padding exactly up to the first kept character |
| ExceptionMessages.AdditionalMessageRoundTrip | src/main/java/com/cinema/global/exception/GlobalExceptionHandler.java:197-205 | a message made of the base message, any padding and an already trimmed detail yields that detail back, and the bare base message yields "" |
| ExceptionMessages.ValidationResponseSpec | src/main/java/com/cinema/global/exception/GlobalExceptionHandler.java:94-100 | the validation response carries INVALID_INPUT and a message that lays out each field error as "field: message", in order, separated by ", " and nothing else |
| LoggingAspect.Truncate | src/main/java/com/cinema/global/aspect/LoggingAspect.java:102-107 | a null string logs as "null"; a string of at most 500 characters is kept; a longer one is cut to its first 500 characters followed by "...(truncated)" |
| LoggingAspect.TruncateSpec | src/main/java/com/cinema/global/aspect/LoggingAspect.java:102-107 | the output never exceeds 514 characters, starts with the first 500 characters of the input (all of it when shorter), and truncating again changes nothing |
| LoggingAspect.Leading | src/main/java/com/cinema/global/aspect/LoggingAspect.java:117 | the length of the maximal leading run of characters satisfying a class |
| LoggingAspect.MatchAt | src/main/java/com/cinema/global/aspect/LoggingAspect.java:116-119 | a match of the field's pattern at the front of the text is non-empty and within it |
| LoggingAspect.PairMatches | src/main/java/com/cinema/global/aspect/LoggingAspect.java:116-119 | a pair "field", spaces, colon, spaces and a quoted value without quotes at the front of the text is matched, and the match is exactly that pair |
| LoggingAspect.MatchIsPair | src/main/java/com/cinema/global/aspect/LoggingAspect.java:116-119 | every match is such a pair: the matched text splits into the key, spaces, a colon, spaces and a quoted value without quotes |
| LoggingAspect.NoMatchOffQuote | src/main/java/com/cinema/global/aspect/LoggingAspect.java:117 | no match starts at a character other than a double quote |
| LoggingAspect.ReplaceCopies | src/main/java/com/cinema/global/aspect/LoggingAspect.java:116-119 | where no match starts, the scan copies one character and moves on |
| LoggingAspect.FewQuotesUnchanged | src/main/java/com/cinema/global/aspect/LoggingAspect.java:116-119 | text holding fewer than four double quotes contains no match and is left as it is |
| LoggingAspect.QuoteFreeFront | src/main/java/com/cinema/global/aspect/LoggingAspect.java:116-119 | text without double quotes in front of the rest is copied unchanged |
| LoggingAspect.OtherKeyNoMatch | src/main/java/com/cinema/global/aspect/LoggingAspect.java:117 | the key of one field never matches the pattern of a different field |
| LoggingAspect.ReplaceOnePair | src/main/java/com/cinema/global/aspect/LoggingAspect.java:116-119 | replaceAll for a field turns a pair of that field between quote-free text into "field":"****" and leaves a pair of any other field unchanged |
| LoggingAspect.MaskOnePair | src/main/java/com/cinema/global/aspect/LoggingAspect.java:112-122 | masking with a list of field names replaces a pair whose name is listed by "name":"****" and keeps any other pair, whatever the order of the list |
| LoggingAspect.MaskSensitiveData | src/main/java/com/cinema/global/aspect/LoggingAspect.java:112-122 | the loop's result is one replaceAll per sensitive field, in the order of SENSITIVE_FIELDS |
| LoggingAspect.SensitiveFieldsQuoteFree | src/main/java/com/cinema/global/aspect/LoggingAspect.java:30-32 | no sensitive field name holds a double quote |
| LoggingAspect.MaskSensitivePair | src/main/java/com/cinema/global/aspect/LoggingAspect.java:112-122 | maskSensitiveData turns the value of a sensitive field into "****" and keeps the pair of any other field |
| LoggingAspect.NoMatchAtValue | src/main/java/com/cinema/global/aspect/LoggingAspect.java:117 | the opening quote of a quoted value followed by punctuation starts no match, even when the value equals the field name |
| LoggingAspect.SkipOtherField | src/main/java/com/cinema/global/aspect/LoggingAspect.java:116-119 | replaceAll for a field copies another field's pair followed by punctuation unchanged and scans on after it |
| LoggingAspect.MaskOwnField | src/main/java/com/cinema/global/aspect/LoggingAspect.java:116-119 | replaceAll for a field replaces that field's pair by "field":"****" and scans on after it |
| LoggingAspect.ReplaceEntries | src/main/java/com/cinema/global/aspect/LoggingAspect.java:116-119 | one replaceAll over a text of string fields masks exactly the fields with that name and keeps everything else |
| LoggingAspect.MaskAllEntries | src/main/java/com/cinema/global/aspect/LoggingAspect.java:112-122 | the loop over a list of field names masks exactly the fields whose name is listed |
| LoggingAspect.MaskAllQuoteFreeFront | src/main/java/com/cinema/global/aspect/LoggingAspect.java:112-122 | text without quotes in front is copied by every pass of the loop |
| LoggingAspect.MaskSensitiveEntries | src/main/java/com/cinema/global/aspect/LoggingAspect.java:112-122 | maskSensitiveData on a JSON text of string fields writes every sensitive field as "name":"****" and keeps every other field and all punctuation |
| LoggingAspect.MaskSensitiveIdempotent | src/main/java/com/cinema/global/aspect/LoggingAspect.java:112-122 | on a JSON text of string fields, masking the masked text changes nothing more |
| LoggingAspect.TokenIsMasked | src/main/java/com/cinema/global/aspect/LoggingAspect.java:30-32 | a "token" pair is logged as "token":"****" |
| LoggingAspect.HoldTokenIsKept | src/main/java/com/cinema/global/aspect/LoggingAspect.java:117 | a "holdToken" pair is kept, because the pattern needs a double quote right before the field name |
| JwtMask.MaskToken | src/main/java/com/cinema/global/jwt/JwtTokenProvider.java:107-112 | a missing token or one shorter than ten characters is shown as "***"; any other is its first ten characters followed by "..." |
| JwtMask.MaskTokenBounded | src/main/java/com/cinema/global/jwt/JwtTokenProvider.java:107-112 | a masked token has at most 13 characters and shows at most the token's first ten |
| JwtMask.MaskTokenHidesTail | src/main/java/com/cinema/global/jwt/JwtTokenProvider.java:107-112 | tokens that agree on their first ten characters are masked alike, so nothing after them reaches the log |
| ClientLog.SkipBreaks | src/main/java/com/cinema/application/log/ClientLogController.java:51 | skips exactly the leading run of line breaks and tabs |
| ClientLog.Collapse | src/main/java/com/cinema/application/log/ClientLogController.java:51 | the cleaned text holds no line break or tab and is no longer than the input |
| ClientLog.Sanitize | src/main/java/com/cinema/application/log/ClientLogController.java:49-53 | a null or empty string gives ""; otherwise the result is a prefix of the cleaned text of at most 2000 characters, all of it when it fits, and never holds a line break or tab |
| ClientLog.SkipBreaksOf | src/main/java/com/cinema/application/log/ClientLogController.java:51 | a leading run of breaks is skipped exactly |
| ClientLog.CollapseClean | src/main/java/com/cinema/application/log/ClientLogController.java:51 | text without breaks is kept as it is |
| ClientLog.CollapseRun | src/main/java/com/cinema/application/log/ClientLogController.java:51 | text without breaks, a maximal run of breaks and the rest become the text, one space and the cleaned rest |
| ClientLog.SanitizeIdempotent | src/main/java/com/cinema/application/log/ClientLogController.java:49-53 | sanitizing a sanitized string changes nothing |
| ClientLog.LevelOfSpec | src/main/java/com/cinema/application/log/ClientLogController.java:39-44 | warn, error and debug are chosen in any letter case; every other level, and a null one, logs at INFO |
| ClientLog.ChannelOfSpec | src/main/java/com/cinema/application/log/ClientLogController.java:38 | the entry goes to the frontend log exactly when the source is "frontend" in some letter case, and to the mobile log otherwise, a null source included |
| ClientLog.ReceiveLogSpec | src/main/java/com/cinema/application/log/ClientLogController.java:32-47 | the entry's channel and level follow the request; its text starts with the bracketed category and the sanitized message, and after the category holds no line break or tab and at most 4001 characters |
| SeatMap.FillAndClickSpec | frontend/src/components/booking/SeatMap.tsx:63-75 | a seat is drawn in the other-hold colour exactly when someone else holds it; it is clickable exactly when the map is enabled and the seat is available or held by the user; a clickable seat is drawn green or in the user's hold colour |
| SeatMap.Insert | frontend/src/components/booking/SeatMap.tsx:41-44 | inserting adds exactly the element |
| SeatMap.SortBy | frontend/src/components/booking/SeatMap.tsx:41-44 | sorting is a permutation of its input |
| SeatMap.InsertSorted | frontend/src/components/booking/SeatMap.tsx:41-44 | inserting into a sorted list keeps it sorted |
| SeatMap.SortBySorted | frontend/src/components/booking/SeatMap.tsx:41-44 | the sort's result is sorted for any comparator that is a total preorder |
| SeatMap.SortByKeepsDistinctKeys | frontend/src/components/booking/SeatMap.tsx:43-45 | sorting keeps row labels distinct |
| SeatMap.LabelIndex | frontend/src/components/booking/SeatMap.tsx:37-38 | the position of the first row with the label, or the number of rows when none has it |
| SeatMap.GroupSpec | frontend/src/components/booking/SeatMap.tsx:34-39 | the grouping loop gives one row per label, no label twice, each row holding exactly the seats with its label in their original order, and every seat's label has a row |
| SeatMap.AddSeatSpec | frontend/src/components/booking/SeatMap.tsx:35-39 | one turn of the grouping loop keeps that invariant |
| SeatMap.GroupSeatsByRow | frontend/src/components/booking/SeatMap.tsx:33-47 | the method's rows are those of the grouping and the two sorts |
| SeatMap.SeatNoLeIsTotalPreorder | frontend/src/components/booking/SeatMap.tsx:41 | ordering by seat number is a total preorder |
| SeatMap.LabelOrderIsTotalPreorder | frontend/src/components/booking/SeatMap.tsx:43-45 | ordering rows by a total preorder on labels is a total preorder |
| SeatMap.RowsOrdered | frontend/src/components/booking/SeatMap.tsx:43-45 | the rows come in label order, no label twice |
| SeatMap.RowContents | frontend/src/components/booking/SeatMap.tsx:33-47 | each row is non-empty, in ascending seat number, and a permutation of the seats with its label |
| SeatMap.RowsCover | frontend/src/components/booking/SeatMap.tsx:33-47 | every seat's label has a row |
| SeatMap.GroupSeatsByRowSpec | frontend/src/components/booking/SeatMap.tsx:33-47 | rows in label order with no label twice, each non-empty, in seat-number order and holding exactly the seats with its label, and every seat's label has a row |
| SeatMap.MaxRowLength | frontend/src/components/booking/SeatMap.tsx:57 | the longest row's length: no row is longer and some row has it, or there are no seats |
| SeatMap.SeatInsideDrawing | frontend/src/components/booking/SeatMap.tsx:55-61 | every seat rectangle lies inside the drawing with 40 pixels to spare on the right and 24 at the bottom |
| SeatMap.DrawingIsTight | frontend/src/components/booking/SeatMap.tsx:55-61 | the drawing is at least one seat plus margins wide, and its right and bottom margins are exact for the last seat of the longest row and for the last row |
| HoldTimer.RemainingSeconds | frontend/src/components/booking/HoldTimer.tsx:12-16 | the whole seconds left, rounded down and never negative; zero exactly when less than a second is left |
| HoldTimer.RemainingNeverGrows | frontend/src/components/booking/HoldTimer.tsx:12-16 | a later instant never shows more time left |
| HoldTimer.PadStart | frontend/src/components/booking/HoldTimer.tsx:21 | the padded string has the requested width or the original length, ends with the original and is filled in front |
| HoldTimer.TwoDigits | frontend/src/components/booking/HoldTimer.tsx:20-21 | the seconds past the minute, padded, are two digits worth that number |
| HoldTimer.DisplayRoundTrip | frontend/src/components/booking/HoldTimer.tsx:18-22 | a display with fewer than 60 seconds past the minute reads back as those minutes and seconds |
| HoldTimer.FormatRemainingRoundTrip | frontend/src/components/booking/HoldTimer.tsx:18-22 | reading the displayed text back gives the number of seconds again |
| HoldTimer.FormatRemainingInjective | frontend/src/components/booking/HoldTimer.tsx:18-22 | two different second counts never display the same text |
| HoldTimer.TickSpec | frontend/src/components/booking/HoldTimer.tsx:32-46 | a tick calls onExpire, when one is given, exactly when less than a second is left, and the timer is then hidden; otherwise it shows the remaining time, in the warning style exactly in the last 60 seconds |
| HoldTimer.ExpiredStaysExpired | frontend/src/components/booking/HoldTimer.tsx:32-36 | once a tick finds the hold expired, every later tick does too |
| ErrorHandler.GetErrorMessageSpec | frontend/src/utils/errorHandler.ts:14-38 | a server message wins; then 400, 401, 403, 404 and 500 get their fixed texts; then the error's own message or the unknown-error text; a plain error gives its message and anything else the unknown-error text; the result is empty only for a plain error with an empty message |
| ErrorHandler.RetrySpec | frontend/src/utils/errorHandler.ts:40-54 | only axios errors are retried: those with a status of 500 or more and those with no response that did not time out; a 4xx error is never retried, and a network error is retryable and shows its own message |

## Left out

- Concurrency: every service call runs alone. Locks appear only as a sequential table of owner and reentrancy count per key.
- SeatSse.PublishStep: a send either succeeds or fails with IOException, and a failed emitter is dropped. The source catches only IOException, so another exception from send (an IllegalStateException from a completed emitter) ends the loop early and is not modelled.
- LockManager: the lock lease (leaseTime) and lock expiry are not modelled; a held lock stays held until it is unlocked.
- Real Redis, Redisson, JPA/QueryDSL and Gson: stores are value maps, queries are filters over table sequences, and a store call's success is a boolean parameter.
- The JSON text that Gson renders for logging is an input of LoggingAspect, not produced by the model.
- Loggers and the HTTP response writers are left out. The model returns what would be written: the verdict, the log entry, the error code.
- Clocks (LocalDateTime.now, System.currentTimeMillis, System.nanoTime, Date.now), UUIDs and generated reservation and transaction numbers are parameters.
- A LocalDateTime is an integer count of milliseconds. A day is that count divided by the milliseconds in a day, and time zones are not modelled.
- LoginBruteForce: that System.nanoTime never goes back is a precondition (the clock field), not a modelled fact.
- Java int and long overflow is not modelled. Counters, sums of prices and millisecond arithmetic are unbounded integers.
- AdminStats.computeTodayOccupancy is left out, because it computes a floating-point ratio rounded with BigDecimal.
- Paging and sorting done by the database (Pageable, ORDER BY) are inputs: each listing starts from the fetched page in the order it was fetched.
- Home.GetStats has no contract. Its screening count is the length of the window query's result, and that result is an input.
- The window queries (findByStartTimeBetween and the ...Between repository methods) are inclusive at both ends, as Spring Data derives them. They are modelled as filters or as inputs.
- HoldExpiry: the sweep groups seat ids in a HashMap, whose iteration order Java does not specify. The model publishes per screening in the order each screening is first met. Each screening's seat list keeps discovery order, as the ArrayList does.
- Case-insensitive comparisons (equalsIgnoreCase, toLowerCase) fold ASCII letters only.
- String.trim treats every character up to U+0020 as whitespace, as Java does. isBlank follows Character.isWhitespace, including its Unicode space, line and paragraph separators.
- SeatMap: localeCompare with numeric collation is a parameter of GroupSeatsByRow, assumed to be a total preorder. The browser's Array.prototype.sort is modelled as a stable insertion sort.
- HoldTimer: parsing the expiry string into a Date, setInterval and the React effect lifecycle are left out. The expiry instant and the clock reading are parameters.
- ErrorHandler: the axios error is abstracted to its response status, the body's message, its code and its message text.
- JWT signing and parsing in JwtTokenProvider are left out. Only maskToken is modelled.
- RedisHolds: the refresh-token store operations (saveRefreshToken, getRefreshToken, deleteRefreshToken) are left out. They are thin wrappers over the store; only their key builder is modelled.
- RedisRateLimit: INCR returning null and a store exception are the same incrOk = false case. Both allow the call.
- ReservationPayments: getReservationDetail and getReservationsByMember (src/main/java/com/cinema/domain/reservation/service/ReservationPaymentService.java:180-243) are read-only DTO mappings and are not modelled.
- ReservationPayments: startPaymentForReservation, releaseOnPaymentFailure, reserveForPayment and cancelForReservation are called by ReservationPaymentService but do not exist in SeatCommandService.java. Each is modelled as a lookup of the seat, a hold-token check where a token is passed, the matching ScreeningSeat transition and a save. This is an assumption.
- Common.ErrorCode: PAYMENT_NOT_FOUND, RESERVATION_CANNOT_CONFIRM and several other codes are referenced but not defined in ErrorCode.java. They are included as constructors. Their HTTP statuses and message texts are not part of this model.
- AdminScreenings: ScreeningException.timeOverlap and Screening.updateInfo are called but not declared in the source. The overlap error is the code SCREENING_TIME_OVERLAP, and an update replaces the movie, screen, start and end of the row.
- ExceptionMessages: the BusinessException classes that build the full message are not part of this model. The full message is an input.
- ClientLog: the request's data map is an input given already rendered by toString.
- LoggingAspect.MaskSensitiveData: its effect is proved for JSON text made of string fields, with braces, brackets and commas between them (MaskSensitiveEntries, MaskSensitiveIdempotent). Text holding numbers, booleans, nested quotes or escaped quotes is not covered, and masking twice is proved to equal masking once only for such text.
- LoggingAspect.MaskSensitivePair and LoggingAspect.MaskOnePair cover a text holding a single pair with quote-free text around it. Several fields are covered by MaskSensitiveEntries.
- LoggingAspect.Truncate: lengths and cuts count Unicode code points, where Java's length and substring count UTF-16 code units. A text with characters beyond U+FFFF is cut at a different place, and the 500 and 514 bounds are in code points.
- ClientLog.Sanitize: the 2000-character cut counts Unicode code points, not UTF-16 code units, for the same reason as Truncate.
- JwtMask.MaskToken: the ten-character prefix counts code points; JWTs are ASCII, so this is the same as Java's count.
- AdminStats.TopMoviesByBookings: moviesById is a HashMap, whose iteration order Java does not specify. The model takes the movies in the order of their first screening, so movies with equal counts are ranked in that order. The contracts (TopMoviesSpec and the lemmas beside it) hold for any order of ties.
- ScreeningSeats: the JPA callbacks onCreate and onUpdate only stamp createdAt and updatedAt, and are left out with the other audit timestamps.
- The admin listings use the corrected date filter, JoinedRows.InDateRange. The as-written filter is kept beside it (see Findings).
- Both rate-limit filters use the corrected client key, ForwardedFor.ClientKey. The as-written key is kept beside it (see Findings).

## Findings

| source | as written | input that shows it | evidently intended | confidence | as-written member | corrected member |
|---|---|---|---|---|---|---|
| src/main/java/com/cinema/domain/screening/service/SeatCommandService.java:111-112 | doHold saves the hold entry under a fresh token before the entity checks that the seat is AVAILABLE | member A holds a seat; member B then asks to hold the same seat: B is refused with SEAT_NOT_AVAILABLE, but the store now holds B's token, so A's release with A's own token fails with INVALID_HOLD_TOKEN | a refused hold leaves the hold store as it was | not executed | SeatCommands.RefusedHoldLocksOutHolder | SeatCommands.CheckedHoldKeepsHolderEntry |
| src/main/java/com/cinema/domain/admin/service/AdminReservationService.java:56 | the end-date bound is atTime(23, 59, 59), so an instant after 23:59:59 on the end date fails the filter | a reservation created at 23:59:59.5 on the end date is dropped from the listing | the end date is inclusive: every instant of that day passes | not executed | JoinedRows.LastSecondDropped | JoinedRows.InDateRangeMeansDays |
| src/main/java/com/cinema/domain/admin/service/AdminPaymentService.java:50 | the same 23:59:59 end bound on the payment listing | a payment created at 23:59:59.5 on the end date is dropped from the listing | the end date is inclusive | not executed | JoinedRows.LastSecondDropped | JoinedRows.InDateRangeMeansDays |
| src/main/java/com/cinema/global/security/AuthRateLimitFilter.java:96 | forwarded.split(",")[0] on a header that is not blank | X-Forwarded-For: "," makes split return no entry, so the index throws | a header with no address falls back to the remote address | not executed | ForwardedFor.CommasOnlyHeaderThrows | ForwardedFor.ClientKeySpec |
| src/main/java/com/cinema/global/security/ApiRateLimitFilter.java:107 | the same split(",")[0] in the API filter's clientKey | X-Forwarded-For: ",," throws in the same way | a header with no address falls back to the remote address | not executed | ForwardedFor.CommasOnlyHeaderThrows | ForwardedFor.ClientKeySpec |
