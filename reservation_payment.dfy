/**
 * Booking and cancelling (domain/reservation/service/ReservationPaymentService.java).
 *
 * `processPayment` prices the requested seats on the server, moves each held
 * seat to PAYMENT_PENDING, asks the payment gateway, and on approval creates
 * the reservation (one line per seat) and a SUCCESS payment and reserves every
 * seat; `cancelReservation` undoes a confirmed booking. Both are
 * `@Transactional`: when either throws, every table it wrote returns to what it
 * was when the call began.
 *
 * The per-seat commands are the `SeatCommandService` methods the service calls
 * (`startPaymentForReservation`, `releaseOnPaymentFailure`, `reserveForPayment`,
 * `cancelForReservation`). Those methods are not in SeatCommandService.java; each
 * is taken here to look the seat up, check the hold token when one is passed,
 * apply the matching `ScreeningSeat` transition and save the row.
 */
module ReservationPayments {
  import opened Common
  import opened Seqs
  import opened SeatStatuses
  import opened ScreeningSeats
  import opened SeatRepository
  import Reservations
  import Payments
  import Screenings
  import Pricing
  import Text
  import MockPayment

  datatype SeatHoldItem = SeatHoldItem(seatId: nat, holdToken: string)

  datatype PaymentRequest = PaymentRequest(screeningId: nat, seatHoldItems: seq<SeatHoldItem>, payMethod: Payments.PaymentMethod)

  datatype PaymentResponse = PaymentResponse(reservationId: nat, reservationNo: string, screeningId: nat, totalSeats: int, totalAmount: int)

  /** The tables the two operations write: seat rows, reservations by id, and the payment table in insertion order. */
  datatype Db = Db(rows: seq<SeatRecord>, reservations: map<nat, Reservations.ReservationRecord>, payments: seq<Payments.PaymentRecord>)

  /** What one payment draws from outside: the generated ids and numbers, and the clock. */
  datatype Fresh = Fresh(reservationId: nat, reservationNo: string, paymentId: nat, paymentNo: string, now: int)

  // ---------------------------------------------------------------------------
  // Per-seat commands

  /** One per-seat command: which seat, the hold token to check (if any), and the transition. */
  datatype SeatOrder = SeatOrder(seatId: nat, token: Option<string>, cmd: SeatCommand)

  predicate OrderApplies(rows: seq<SeatRecord>, screeningId: nat, o: SeatOrder)
  {
    var found := FindRow(rows, screeningId, o.seatId);
    found.Some?
    && (o.token.Some? ==> ValidateHoldToken(found.value, o.token.value))
    && Step(found.value, o.cmd).Ok?
  }

  /** The row a command that applies leaves behind; it keeps the seat's key. */
  function Applied(rows: seq<SeatRecord>, screeningId: nat, o: SeatOrder): (n: SeatRecord)
    requires OrderApplies(rows, screeningId, o)
    ensures HasKey(n, screeningId, o.seatId)
  {
    StepFollowsLifecycle(FindRow(rows, screeningId, o.seatId).value, o.cmd);
    Step(FindRow(rows, screeningId, o.seatId).value, o.cmd).value
  }

  /** One command: SEAT_NOT_FOUND, INVALID_HOLD_TOKEN, the transition's own error, or the saved row. */
  function ApplyOrder(rows: seq<SeatRecord>, screeningId: nat, o: SeatOrder): (res: Result<seq<SeatRecord>>)
    ensures res.Ok? <==> OrderApplies(rows, screeningId, o)
    ensures res.Ok? ==> res.value == StoreRow(rows, Applied(rows, screeningId, o))
  {
    var found := FindRow(rows, screeningId, o.seatId);
    if found.None? then Err(SEAT_NOT_FOUND)
    else if o.token.Some? && !ValidateHoldToken(found.value, o.token.value) then Err(INVALID_HOLD_TOKEN)
    else
      var next := Step(found.value, o.cmd);
      if next.Err? then Err(next.error) else Ok(StoreRow(rows, next.value))
  }

  /** A loop of commands in order; the first that throws ends it. */
  function ApplyOrders(rows: seq<SeatRecord>, screeningId: nat, orders: seq<SeatOrder>): Result<seq<SeatRecord>>
    decreases |orders|
  {
    if orders == [] then Ok(rows)
    else
      var first := ApplyOrder(rows, screeningId, orders[0]);
      if first.Err? then first else ApplyOrders(first.value, screeningId, orders[1..])
  }

  function OrderSeats(orders: seq<SeatOrder>): (ids: seq<nat>)
    ensures |ids| == |orders| && forall i :: 0 <= i < |orders| ==> ids[i] == orders[i].seatId
  {
    Map(orders, (o: SeatOrder) => o.seatId)
  }

  /** Every command applies to the rows as they were before the loop. */
  predicate AllApply(rows: seq<SeatRecord>, screeningId: nat, orders: seq<SeatOrder>)
  {
    forall i :: 0 <= i < |orders| ==> OrderApplies(rows, screeningId, orders[i])
  }

  /** Each commanded seat holds what its own command made of its row in `rows`. */
  predicate AllApplied(rows: seq<SeatRecord>, out: seq<SeatRecord>, screeningId: nat, orders: seq<SeatOrder>)
  {
    forall i :: 0 <= i < |orders| ==>
      OrderApplies(rows, screeningId, orders[i])
      && FindRow(out, screeningId, orders[i].seatId) == Some(Applied(rows, screeningId, orders[i]))
  }

  /** No seat outside `seatIds` of this screening, and no seat of another screening, changed. */
  ghost predicate OthersUnchanged(rows: seq<SeatRecord>, out: seq<SeatRecord>, screeningId: nat, seatIds: seq<nat>)
  {
    forall s, u :: (s != screeningId || u !in seatIds) ==> FindRow(out, s, u) == FindRow(rows, s, u)
  }

  /** One applied command leaves every other seat's row, and so every command on it, as before. */
  lemma ApplyOneKeepsOthers(rows: seq<SeatRecord>, screeningId: nat, o: SeatOrder, rest: seq<SeatOrder>)
    requires KeysUnique(rows) && OrderApplies(rows, screeningId, o)
    requires forall j :: 0 <= j < |rest| ==> rest[j].seatId != o.seatId
    ensures var rows1 := ApplyOrder(rows, screeningId, o).value;
      && KeysUnique(rows1)
      && FindRow(rows1, screeningId, o.seatId) == Some(Applied(rows, screeningId, o))
      && OthersUnchanged(rows, rows1, screeningId, [o.seatId])
      && (AllApply(rows1, screeningId, rest) <==> AllApply(rows, screeningId, rest))
      && (forall out :: AllApplied(rows1, out, screeningId, rest) <==> AllApplied(rows, out, screeningId, rest))
  {
    var n := Applied(rows, screeningId, o);
    StoreRowSpec(rows, n);
    var rows1 := StoreRow(rows, n);
    forall j | 0 <= j < |rest|
      ensures FindRow(rows1, screeningId, rest[j].seatId) == FindRow(rows, screeningId, rest[j].seatId)
    {
    }
  }

  /** Unchanged outside `a`, then outside `b`, is unchanged outside `a + b`. */
  lemma OthersUnchangedCompose(r0: seq<SeatRecord>, r1: seq<SeatRecord>, r2: seq<SeatRecord>, screeningId: nat, a: seq<nat>, b: seq<nat>)
    requires OthersUnchanged(r0, r1, screeningId, a) && OthersUnchanged(r1, r2, screeningId, b)
    ensures OthersUnchanged(r0, r2, screeningId, a + b)
  {
    forall s, u | s != screeningId || u !in a + b
      ensures FindRow(r2, s, u) == FindRow(r0, s, u)
    {
      assert u !in a + b ==> u !in a && u !in b;
    }
  }

  /**
   * Commands on distinct seats: the loop completes exactly when every command
   * applies to the rows as they were before the loop; then each seat holds what
   * its own command made of its original row, no other seat changes, and keys
   * stay unique.
   */
  lemma {:induction false} ApplyOrdersSpec(rows: seq<SeatRecord>, screeningId: nat, orders: seq<SeatOrder>)
    requires KeysUnique(rows)
    requires Distinct(OrderSeats(orders))
    ensures var res := ApplyOrders(rows, screeningId, orders);
      && (res.Ok? <==> AllApply(rows, screeningId, orders))
      && (res.Ok? ==> KeysUnique(res.value))
      && (res.Ok? ==> AllApplied(rows, res.value, screeningId, orders))
      && (res.Ok? ==> OthersUnchanged(rows, res.value, screeningId, OrderSeats(orders)))
    decreases |orders|
  {
    if orders != [] {
      var o := orders[0];
      var rest := orders[1..];
      assert OrderSeats(orders) == [o.seatId] + OrderSeats(rest);
      assert Distinct(OrderSeats(rest)) by {
        assert OrderSeats(rest) == OrderSeats(orders)[1..];
      }
      assert forall j :: 0 <= j < |rest| ==> rest[j].seatId != o.seatId by {
        forall j | 0 <= j < |rest| ensures rest[j].seatId != o.seatId {
          assert OrderSeats(orders)[0] != OrderSeats(orders)[j + 1];
        }
      }
      assert AllApply(rows, screeningId, orders) <==> OrderApplies(rows, screeningId, o) && AllApply(rows, screeningId, rest) by {
        if OrderApplies(rows, screeningId, o) && AllApply(rows, screeningId, rest) {
          forall i | 0 <= i < |orders| ensures OrderApplies(rows, screeningId, orders[i]) {
            if i > 0 { assert orders[i] == rest[i - 1]; }
          }
        }
        if AllApply(rows, screeningId, orders) {
          forall j | 0 <= j < |rest| ensures OrderApplies(rows, screeningId, rest[j]) {
            assert rest[j] == orders[j + 1];
          }
        }
      }
      if OrderApplies(rows, screeningId, o) {
        var rows1 := ApplyOrder(rows, screeningId, o).value;
        ApplyOneKeepsOthers(rows, screeningId, o, rest);
        ApplyOrdersSpec(rows1, screeningId, rest);
        var res := ApplyOrders(rows1, screeningId, rest);
        if res.Ok? {
          OthersUnchangedCompose(rows, rows1, res.value, screeningId, [o.seatId], OrderSeats(rest));
          assert AllApplied(rows, res.value, screeningId, rest);
          forall i | 0 <= i < |orders|
            ensures OrderApplies(rows, screeningId, orders[i])
            ensures FindRow(res.value, screeningId, orders[i].seatId) == Some(Applied(rows, screeningId, orders[i]))
          {
            if i == 0 {
              assert o.seatId !in OrderSeats(rest);
            } else {
              assert orders[i] == rest[i - 1];
            }
          }
        }
      }
    }
  }

  /** `startPaymentForReservation(screeningId, seatId, holdToken, memberId)` for each requested seat. */
  function StartOrders(items: seq<SeatHoldItem>): (o: seq<SeatOrder>)
    ensures |o| == |items|
    ensures forall i :: 0 <= i < |items| ==> o[i] == SeatOrder(items[i].seatId, Some(items[i].holdToken), StartPaymentCmd)
  {
    Map(items, (it: SeatHoldItem) => SeatOrder(it.seatId, Some(it.holdToken), StartPaymentCmd))
  }

  /** `releaseOnPaymentFailure(screeningId, seatId)` for each requested seat. */
  function ReleaseOrders(items: seq<SeatHoldItem>): (o: seq<SeatOrder>)
    ensures |o| == |items|
    ensures forall i :: 0 <= i < |items| ==> o[i] == SeatOrder(items[i].seatId, None, PaymentFailedCmd)
  {
    Map(items, (it: SeatHoldItem) => SeatOrder(it.seatId, None, PaymentFailedCmd))
  }

  /** `reserveForPayment(screeningId, seatId, memberId, holdToken)` for each requested seat. */
  function ReserveOrders(items: seq<SeatHoldItem>, memberId: nat): (o: seq<SeatOrder>)
    ensures |o| == |items|
    ensures forall i :: 0 <= i < |items| ==> o[i] == SeatOrder(items[i].seatId, Some(items[i].holdToken), ReserveCmd(memberId))
  {
    Map(items, (it: SeatHoldItem) => SeatOrder(it.seatId, Some(it.holdToken), ReserveCmd(memberId)))
  }

  /** `cancelForReservation(screeningId, seatId)` for each seat of the reservation. */
  function CancelOrders(lines: seq<Reservations.ReservationLine>): (o: seq<SeatOrder>)
    ensures |o| == |lines|
    ensures forall i :: 0 <= i < |lines| ==> o[i] == SeatOrder(lines[i].seatId, None, CancelCmd)
  {
    Map(lines, (l: Reservations.ReservationLine) => SeatOrder(l.seatId, None, CancelCmd))
  }

  function SeatIdsOf(items: seq<SeatHoldItem>): (ids: seq<nat>)
    ensures |ids| == |items| && forall i :: 0 <= i < |items| ==> ids[i] == items[i].seatId
  {
    Map(items, (it: SeatHoldItem) => it.seatId)
  }

  /** Every requested seat exists, is HOLD, and carries the presented token. */
  predicate HoldsPresented(rows: seq<SeatRecord>, screeningId: nat, items: seq<SeatHoldItem>)
  {
    forall i :: 0 <= i < |items| ==>
      FindRow(rows, screeningId, items[i].seatId).Some?
      && FindRow(rows, screeningId, items[i].seatId).value.status == HOLD
      && FindRow(rows, screeningId, items[i].seatId).value.holdToken == Some(items[i].holdToken)
  }

  // ---------------------------------------------------------------------------
  // Reservation lines and the payment table

  /** One line per seat id, priced from the server-computed map. */
  function LinesFor(screeningId: nat, seatIds: seq<nat>, prices: map<nat, int>): (ls: seq<Reservations.ReservationLine>)
    requires forall i :: 0 <= i < |seatIds| ==> seatIds[i] in prices
    ensures |ls| == |seatIds|
    ensures forall i :: 0 <= i < |seatIds| ==> ls[i] == Reservations.ReservationLine(screeningId, seatIds[i], prices[seatIds[i]])
  {
    if seatIds == [] then []
    else [Reservations.ReservationLine(screeningId, seatIds[0], prices[seatIds[0]])] + LinesFor(screeningId, seatIds[1..], prices)
  }

  /** `addSeat` for each line in order. */
  function AddLines(r: Reservations.ReservationRecord, ls: seq<Reservations.ReservationLine>): (n: Reservations.ReservationRecord)
    ensures n.lines == r.lines + ls
    ensures n.(lines := r.lines, totalSeats := r.totalSeats, totalAmount := r.totalAmount) == r
    ensures ls != [] || Reservations.TotalsConsistent(r) ==> Reservations.TotalsConsistent(n)
    decreases |ls|
  {
    if ls == [] then r
    else
      var prev := AddLines(r, ls[..|ls| - 1]);
      Reservations.AddLineKeepsTotals(prev, ls[|ls| - 1]);
      assert r.lines + ls[..|ls| - 1] + [ls[|ls| - 1]] == r.lines + ls;
      Reservations.AddLine(prev, ls[|ls| - 1])
  }

  lemma {:induction false} SumPricesCons(l: Reservations.ReservationLine, ls: seq<Reservations.ReservationLine>)
    ensures Reservations.SumPrices([l] + ls) == l.price + Reservations.SumPrices(ls)
    decreases |ls|
  {
    if ls != [] {
      var init := ls[..|ls| - 1];
      assert ([l] + ls)[..|[l] + ls| - 1] == [l] + init;
      SumPricesCons(l, init);
    }
  }

  /** The lines' prices add up to the server-computed total. */
  lemma {:induction false} LinesSumToTotal(screeningId: nat, seatIds: seq<nat>, prices: map<nat, int>)
    requires forall i :: 0 <= i < |seatIds| ==> seatIds[i] in prices
    ensures Reservations.SumPrices(LinesFor(screeningId, seatIds, prices)) == Pricing.SumOver(seatIds, prices)
    decreases |seatIds|
  {
    if seatIds != [] {
      LinesSumToTotal(screeningId, seatIds[1..], prices);
      SumPricesCons(Reservations.ReservationLine(screeningId, seatIds[0], prices[seatIds[0]]), LinesFor(screeningId, seatIds[1..], prices));
    }
  }

  /** The position of the payment with this id, or |payments|. */
  function PaymentIndex(payments: seq<Payments.PaymentRecord>, id: nat): (i: nat)
    ensures i <= |payments|
    ensures forall j :: 0 <= j < i ==> payments[j].id != id
    ensures i < |payments| ==> payments[i].id == id
  {
    if payments == [] then 0
    else if payments[0].id == id then 0
    else 1 + PaymentIndex(payments[1..], id)
  }

  /** `paymentRepository.save`: overwrite the payment with the same id, or append it. */
  function StorePayment(payments: seq<Payments.PaymentRecord>, p: Payments.PaymentRecord): (t: seq<Payments.PaymentRecord>)
    ensures PaymentIndex(t, p.id) < |t| && t[PaymentIndex(t, p.id)] == p
    ensures forall j :: 0 <= j < |payments| && payments[j].id != p.id ==> j < |t| && t[j] == payments[j]
  {
    var i := PaymentIndex(payments, p.id);
    if i == |payments| then
      assert PaymentIndex(payments + [p], p.id) == i by {
        PaymentIndexOfAppend(payments, p);
      }
      payments + [p]
    else
      assert PaymentIndex(payments[i := p], p.id) == i by {
        PaymentIndexOfUpdate(payments, i, p);
      }
      payments[i := p]
  }

  lemma {:induction false} PaymentIndexOfAppend(payments: seq<Payments.PaymentRecord>, p: Payments.PaymentRecord)
    requires PaymentIndex(payments, p.id) == |payments|
    ensures PaymentIndex(payments + [p], p.id) == |payments|
    decreases |payments|
  {
    if payments != [] {
      assert (payments + [p])[1..] == payments[1..] + [p];
      PaymentIndexOfAppend(payments[1..], p);
    }
  }

  lemma {:induction false} PaymentIndexOfUpdate(payments: seq<Payments.PaymentRecord>, i: nat, p: Payments.PaymentRecord)
    requires i == PaymentIndex(payments, p.id) < |payments|
    ensures PaymentIndex(payments[i := p], p.id) == i
    decreases |payments|
  {
    if i > 0 {
      assert payments[i := p][1..] == payments[1..][i - 1 := p];
      PaymentIndexOfUpdate(payments[1..], i - 1, p);
    }
  }

  /** `findByReservationIdAndPayStatus(reservationId, SUCCESS)`: the first such payment's position, or |payments|. */
  function SuccessPaymentIndex(payments: seq<Payments.PaymentRecord>, reservationId: nat): (i: nat)
    ensures i <= |payments|
    ensures forall j :: 0 <= j < i ==> !(payments[j].reservationId == reservationId && payments[j].payStatus == Payments.SUCCESS)
    ensures i < |payments| ==> payments[i].reservationId == reservationId && payments[i].payStatus == Payments.SUCCESS
  {
    if payments == [] then 0
    else if payments[0].reservationId == reservationId && payments[0].payStatus == Payments.SUCCESS then 0
    else 1 + SuccessPaymentIndex(payments[1..], reservationId)
  }

  /** The PG transaction id the mock gateway's caller records. */
  function PgTransactionId(millis: int): string
  {
    "MOCK-PG-" + Text.IntToString(millis)
  }

  // ---------------------------------------------------------------------------
  // processPayment

  function PriceOf(db: Db, config: Pricing.PriceConfig, req: PaymentRequest): Result<Pricing.PriceResult>
  {
    Pricing.Calculate(db.rows, config, req.screeningId, SeatIdsOf(req.seatHoldItems))
  }

  /** The checks before any seat moves: member, screening, bookable, prices. */
  predicate Admitted(db: Db, config: Pricing.PriceConfig, members: set<nat>, screenings: map<nat, Screenings.ScreeningInfo>,
                     memberId: nat, req: PaymentRequest, now: int)
  {
    memberId in members && req.screeningId in screenings
    && Screenings.IsBookable(screenings[req.screeningId], now)
    && PriceOf(db, config, req).Ok?
  }

  /**
   * The reservation a successful payment stores: built PENDING with the first
   * item's token, moved to PAYMENT_PENDING, one line per requested seat priced
   * from the server-computed map, then confirmed.
   */
  function BookedReservation(memberId: nat, req: PaymentRequest, prices: map<nat, int>, gen: Fresh): (res: Reservations.ReservationRecord)
    requires req.seatHoldItems != []
    requires forall i :: 0 <= i < |req.seatHoldItems| ==> req.seatHoldItems[i].seatId in prices
    ensures res.status == Reservations.CONFIRMED && res.holdToken.None?
    ensures res.id == gen.reservationId && res.reservationNo == gen.reservationNo
    ensures res.memberId == memberId && res.screeningId == req.screeningId
    ensures |res.lines| == |req.seatHoldItems|
    ensures forall i :: 0 <= i < |req.seatHoldItems| ==>
      res.lines[i] == Reservations.ReservationLine(req.screeningId, req.seatHoldItems[i].seatId, prices[req.seatHoldItems[i].seatId])
    ensures Reservations.TotalsConsistent(res)
    ensures res.totalSeats == |req.seatHoldItems| && res.totalAmount == Pricing.SumOver(SeatIdsOf(req.seatHoldItems), prices)
  {
    var items := req.seatHoldItems;
    var lines := LinesFor(req.screeningId, SeatIdsOf(items), prices);
    LinesSumToTotal(req.screeningId, SeatIdsOf(items), prices);
    var r1 := AddLines(StartedReservation(memberId, req, gen), lines);
    assert r1.lines == lines;
    Reservations.ConfirmReservation(r1).value
  }

  /** The reservation as built and moved to PAYMENT_PENDING, before any line is added. */
  function StartedReservation(memberId: nat, req: PaymentRequest, gen: Fresh): (r: Reservations.ReservationRecord)
    requires req.seatHoldItems != []
    ensures r.status == Reservations.PAYMENT_PENDING && r.lines == [] && Reservations.TotalsConsistent(r)
  {
    var r0 := Reservations.NewReservation(gen.reservationId, gen.reservationNo, memberId, req.screeningId, Some(req.seatHoldItems[0].holdToken));
    Reservations.StartReservationPayment(r0).value
  }

  /** The payment row as first saved: PENDING for the server-computed amount. */
  function PendingPayment(req: PaymentRequest, amount: int, gen: Fresh): Payments.PaymentRecord
  {
    Payments.NewPayment(gen.paymentId, gen.paymentNo, gen.reservationId, req.payMethod, amount)
  }

  /** The payment row after the gateway approved: SUCCESS with the mock PG transaction id, paid at `now`. */
  function PaidPayment(req: PaymentRequest, amount: int, gen: Fresh): (p: Payments.PaymentRecord)
    ensures p.payStatus == Payments.SUCCESS && p.payAmount == amount && p.id == gen.paymentId
    ensures p.reservationId == gen.reservationId && p.payMethod == req.payMethod
    ensures p.pgTransactionId == Some(PgTransactionId(gen.now)) && p.paidAt == Some(gen.now)
  {
    Payments.PaymentSucceeded(PendingPayment(req, amount, gen), PgTransactionId(gen.now), gen.now).value
  }

  /** Seats that can be priced are a non-empty request whose every seat has a price. */
  lemma PricedItems(db: Db, config: Pricing.PriceConfig, req: PaymentRequest)
    requires PriceOf(db, config, req).Ok?
    ensures req.seatHoldItems != []
    ensures forall i :: 0 <= i < |req.seatHoldItems| ==> req.seatHoldItems[i].seatId in PriceOf(db, config, req).value.priceBySeatId
    ensures PriceOf(db, config, req).value.totalAmount
            == Pricing.SumOver(SeatIdsOf(req.seatHoldItems), PriceOf(db, config, req).value.priceBySeatId)
  {
    var seatIds := SeatIdsOf(req.seatHoldItems);
    Pricing.CalculateOk(db.rows, config, req.screeningId, seatIds);
    forall i | 0 <= i < |req.seatHoldItems|
      ensures req.seatHoldItems[i].seatId in PriceOf(db, config, req).value.priceBySeatId
    {
      assert seatIds[i] in seatIds;
    }
  }

  /**
   * `processPayment`. Any exception rolls every table back, so an error leaves
   * the database as it was.
   */
  function ProcessPaymentStep(db: Db, config: Pricing.PriceConfig, members: set<nat>, screenings: map<nat, Screenings.ScreeningInfo>,
                              memberId: nat, req: PaymentRequest, gateway: (int, Payments.PaymentMethod) -> bool, gen: Fresh)
    : (r: (Result<PaymentResponse>, Db))
    ensures r.0.Err? ==> r.1 == db
    ensures memberId !in members ==> r.0 == Err(MEMBER_NOT_FOUND)
    ensures memberId in members && req.screeningId !in screenings ==> r.0 == Err(SCREENING_NOT_FOUND)
    ensures (memberId in members && req.screeningId in screenings && !Screenings.IsBookable(screenings[req.screeningId], gen.now))
            ==> r.0 == Err(SCREENING_NOT_BOOKABLE)
    ensures r.0.Ok? ==> Admitted(db, config, members, screenings, memberId, req, gen.now)
  {
    var sid := req.screeningId;
    if memberId !in members then (Err(MEMBER_NOT_FOUND), db)
    else if sid !in screenings then (Err(SCREENING_NOT_FOUND), db)
    else if !Screenings.IsBookable(screenings[sid], gen.now) then (Err(SCREENING_NOT_BOOKABLE), db)
    else
      var price := Pricing.Calculate(db.rows, config, sid, SeatIdsOf(req.seatHoldItems));
      if price.Err? then (Err(price.error), db)
      else
        PricedItems(db, config, req);
        PayPricedStep(db, price.value, memberId, req, gateway, gen)
  }

  /** The request's seats all have a price, and there is at least one. */
  predicate PricedRequest(price: Pricing.PriceResult, req: PaymentRequest)
  {
    req.seatHoldItems != []
    && forall i :: 0 <= i < |req.seatHoldItems| ==> req.seatHoldItems[i].seatId in price.priceBySeatId
  }

  /** `processPayment` once the seats are priced: start payment on each seat, then charge. */
  function PayPricedStep(db: Db, price: Pricing.PriceResult, memberId: nat, req: PaymentRequest,
                         gateway: (int, Payments.PaymentMethod) -> bool, gen: Fresh): (r: (Result<PaymentResponse>, Db))
    requires PricedRequest(price, req)
    ensures r.0.Err? ==> r.1 == db
  {
    var sid := req.screeningId;
    var items := req.seatHoldItems;
    var started := ApplyOrders(db.rows, sid, StartOrders(items));
    if started.Err? then (Err(started.error), db)
    else if !gateway(price.totalAmount, req.payMethod) then
      var released := ApplyOrders(started.value, sid, ReleaseOrders(items));
      (Err(if released.Err? then released.error else PAYMENT_FAILED), db)
    else BookStep(db, started.value, price, memberId, req, gen)
  }

  /** `processPayment` once the gateway approved: record the reservation and payment, then reserve each seat. */
  /** The answer `processPayment` gives for a booked reservation. */
  function Answer(booked: Reservations.ReservationRecord, screeningId: nat): PaymentResponse
  {
    PaymentResponse(booked.id, booked.reservationNo, screeningId, booked.totalSeats, booked.totalAmount)
  }

  function BookStep(db: Db, started: seq<SeatRecord>, price: Pricing.PriceResult, memberId: nat, req: PaymentRequest, gen: Fresh)
    : (r: (Result<PaymentResponse>, Db))
    requires PricedRequest(price, req)
    ensures r.0.Err? ==> r.1 == db
  {
    var sid := req.screeningId;
    var items := req.seatHoldItems;
    var looked := Pricing.LookupSeats(started, sid, SeatIdsOf(items));
    if looked.Err? then (Err(looked.error), db)
    else
      var reserved := ApplyOrders(started, sid, ReserveOrders(items, memberId));
      if reserved.Err? then (Err(reserved.error), db)
      else
        var res := BookedReservation(memberId, req, price.priceBySeatId, gen);
        (Ok(Answer(res, sid)),
         Db(reserved.value, db.reservations[gen.reservationId := res],
            StorePayment(StorePayment(db.payments, PendingPayment(req, price.totalAmount, gen)), PaidPayment(req, price.totalAmount, gen))))
  }

  /** Starting payment on held seats: the loop completes exactly on held seats with their tokens, leaving them PAYMENT_PENDING. */
  lemma StartOrdersSpec(rows: seq<SeatRecord>, screeningId: nat, items: seq<SeatHoldItem>)
    requires KeysUnique(rows) && Distinct(SeatIdsOf(items))
    ensures var res := ApplyOrders(rows, screeningId, StartOrders(items));
      && (res.Ok? <==> HoldsPresented(rows, screeningId, items))
      && (res.Ok? ==> KeysUnique(res.value))
      && (res.Ok? ==> forall i :: 0 <= i < |items| ==>
            FindRow(rows, screeningId, items[i].seatId).Some?
            && FindRow(res.value, screeningId, items[i].seatId)
               == Some(FindRow(rows, screeningId, items[i].seatId).value.(status := PAYMENT_PENDING)))
      && (res.Ok? ==> forall s, u :: (s != screeningId || u !in SeatIdsOf(items)) ==>
            FindRow(res.value, s, u) == FindRow(rows, s, u))
  {
    var orders := StartOrders(items);
    assert OrderSeats(orders) == SeatIdsOf(items);
    ApplyOrdersSpec(rows, screeningId, orders);
    forall i | 0 <= i < |items|
      ensures OrderApplies(rows, screeningId, orders[i]) <==>
        FindRow(rows, screeningId, items[i].seatId).Some?
        && FindRow(rows, screeningId, items[i].seatId).value.status == HOLD
        && FindRow(rows, screeningId, items[i].seatId).value.holdToken == Some(items[i].holdToken)
      ensures OrderApplies(rows, screeningId, orders[i]) ==>
        Applied(rows, screeningId, orders[i]) == FindRow(rows, screeningId, items[i].seatId).value.(status := PAYMENT_PENDING)
    {
      StartOrderApplies(rows, screeningId, items[i]);
    }
  }

  /** One seat's `startPayment`: it applies exactly to a HOLD seat whose token matches, and leaves it PAYMENT_PENDING. */
  lemma StartOrderApplies(rows: seq<SeatRecord>, screeningId: nat, it: SeatHoldItem)
    ensures var o := SeatOrder(it.seatId, Some(it.holdToken), StartPaymentCmd);
      var found := FindRow(rows, screeningId, it.seatId);
      && (OrderApplies(rows, screeningId, o) <==>
           found.Some? && found.value.status == HOLD && found.value.holdToken == Some(it.holdToken))
      && (OrderApplies(rows, screeningId, o) ==> Applied(rows, screeningId, o) == found.value.(status := PAYMENT_PENDING))
  {
  }

  /** Every one of `items` names a distinct seat that the rows hold in PAYMENT_PENDING with the item's token. */
  predicate PendingWithTokens(rows: seq<SeatRecord>, screeningId: nat, items: seq<SeatHoldItem>)
  {
    forall i :: 0 <= i < |items| ==>
      FindRow(rows, screeningId, items[i].seatId).Some?
      && FindRow(rows, screeningId, items[i].seatId).value.status == PAYMENT_PENDING
      && FindRow(rows, screeningId, items[i].seatId).value.holdToken == Some(items[i].holdToken)
  }

  /** Reserving seats that are PAYMENT_PENDING under their tokens always completes, and each becomes RESERVED for the member with the hold cleared. */
  lemma ReserveOrdersSpec(rows: seq<SeatRecord>, screeningId: nat, items: seq<SeatHoldItem>, memberId: nat)
    requires KeysUnique(rows) && Distinct(SeatIdsOf(items))
    requires PendingWithTokens(rows, screeningId, items)
    ensures var res := ApplyOrders(rows, screeningId, ReserveOrders(items, memberId));
      && res.Ok? && KeysUnique(res.value)
      && (forall i :: 0 <= i < |items| ==>
            var before := FindRow(rows, screeningId, items[i].seatId).value;
            FindRow(res.value, screeningId, items[i].seatId)
            == Some(WithoutHoldInfo(before.(status := RESERVED, reservedMember := Some(memberId)))))
      && (forall s, u :: (s != screeningId || u !in SeatIdsOf(items)) ==> FindRow(res.value, s, u) == FindRow(rows, s, u))
  {
    var orders := ReserveOrders(items, memberId);
    assert OrderSeats(orders) == SeatIdsOf(items);
    assert forall i :: 0 <= i < |items| ==> OrderApplies(rows, screeningId, orders[i]);
    ApplyOrdersSpec(rows, screeningId, orders);
  }

  /** The payment-failure releases always complete on seats that exist. */
  lemma ReleaseOrdersComplete(rows: seq<SeatRecord>, screeningId: nat, items: seq<SeatHoldItem>)
    requires KeysUnique(rows) && Distinct(SeatIdsOf(items))
    requires forall i :: 0 <= i < |items| ==> FindRow(rows, screeningId, items[i].seatId).Some?
    ensures ApplyOrders(rows, screeningId, ReleaseOrders(items)).Ok?
  {
    var orders := ReleaseOrders(items);
    assert OrderSeats(orders) == SeatIdsOf(items);
    assert forall i :: 0 <= i < |items| ==> OrderApplies(rows, screeningId, orders[i]);
    ApplyOrdersSpec(rows, screeningId, orders);
  }

  /** Once every seat is PAYMENT_PENDING under its token, recording the booking cannot fail. */
  lemma BookStepSucceeds(db: Db, started: seq<SeatRecord>, price: Pricing.PriceResult, memberId: nat, req: PaymentRequest, gen: Fresh)
    requires PricedRequest(price, req)
    requires KeysUnique(started) && Distinct(SeatIdsOf(req.seatHoldItems))
    requires PendingWithTokens(started, req.screeningId, req.seatHoldItems)
    ensures BookStep(db, started, price, memberId, req, gen).0.Ok?
  {
    var sid, items := req.screeningId, req.seatHoldItems;
    assert Pricing.LookupSeats(started, sid, SeatIdsOf(items)).Ok? by {
      var seatIds := SeatIdsOf(items);
      assert forall i :: 0 <= i < |seatIds| ==> FindRow(started, sid, seatIds[i]).Some?;
    }
    assert ApplyOrders(started, sid, ReserveOrders(items, memberId)).Ok? by {
      ReserveOrdersSpec(started, sid, items, memberId);
    }
  }

  /** Starting payment on presented holds leaves every seat PAYMENT_PENDING under its token. */
  lemma StartedSeatsPending(rows: seq<SeatRecord>, screeningId: nat, items: seq<SeatHoldItem>)
    requires KeysUnique(rows) && Distinct(SeatIdsOf(items))
    requires HoldsPresented(rows, screeningId, items)
    ensures ApplyOrders(rows, screeningId, StartOrders(items)).Ok?
    ensures KeysUnique(ApplyOrders(rows, screeningId, StartOrders(items)).value)
    ensures PendingWithTokens(ApplyOrders(rows, screeningId, StartOrders(items)).value, screeningId, items)
  {
    StartOrdersSpec(rows, screeningId, items);
  }

  /**
   * Payment succeeds exactly when the member and screening exist, the screening
   * is bookable, the seats can be priced, every requested seat is HOLD under the
   * presented token, and the gateway approves the server-computed total.
   */
  lemma ProcessPaymentSucceedsIff(db: Db, config: Pricing.PriceConfig, members: set<nat>, screenings: map<nat, Screenings.ScreeningInfo>,
                                  memberId: nat, req: PaymentRequest, gateway: (int, Payments.PaymentMethod) -> bool, gen: Fresh)
    requires KeysUnique(db.rows)
    ensures ProcessPaymentStep(db, config, members, screenings, memberId, req, gateway, gen).0.Ok?
      <==> Admitted(db, config, members, screenings, memberId, req, gen.now)
           && HoldsPresented(db.rows, req.screeningId, req.seatHoldItems)
           && gateway(PriceOf(db, config, req).value.totalAmount, req.payMethod)
  {
    if Admitted(db, config, members, screenings, memberId, req, gen.now) {
      var sid := req.screeningId;
      var items := req.seatHoldItems;
      var seatIds := SeatIdsOf(items);
      var price := PriceOf(db, config, req).value;
      Pricing.CalculateOk(db.rows, config, sid, seatIds);
      PricedItems(db, config, req);
      assert ProcessPaymentStep(db, config, members, screenings, memberId, req, gateway, gen)
          == PayPricedStep(db, price, memberId, req, gateway, gen);
      StartOrdersSpec(db.rows, sid, items);
      if HoldsPresented(db.rows, sid, items) {
        StartedSeatsPending(db.rows, sid, items);
        var started := ApplyOrders(db.rows, sid, StartOrders(items)).value;
        if gateway(price.totalAmount, req.payMethod) {
          BookStepSucceeds(db, started, price, memberId, req, gen);
        }
      }
    }
  }

  /**
   * A declined payment, after every seat was started, raises PAYMENT_FAILED and
   * (the transaction rolling back) leaves every table as it was.
   */
  lemma DeclinedPaymentChangesNothing(db: Db, config: Pricing.PriceConfig, members: set<nat>, screenings: map<nat, Screenings.ScreeningInfo>,
                                      memberId: nat, req: PaymentRequest, gateway: (int, Payments.PaymentMethod) -> bool, gen: Fresh)
    requires KeysUnique(db.rows)
    requires Admitted(db, config, members, screenings, memberId, req, gen.now)
    requires HoldsPresented(db.rows, req.screeningId, req.seatHoldItems)
    requires !gateway(PriceOf(db, config, req).value.totalAmount, req.payMethod)
    ensures ProcessPaymentStep(db, config, members, screenings, memberId, req, gateway, gen) == (Err(PAYMENT_FAILED), db)
  {
    var sid := req.screeningId;
    var items := req.seatHoldItems;
    Pricing.CalculateOk(db.rows, config, sid, SeatIdsOf(items));
    StartOrdersSpec(db.rows, sid, items);
    ReleaseOrdersComplete(ApplyOrders(db.rows, sid, StartOrders(items)).value, sid, items);
  }

  /** With the mock gateway, which approves every amount, payment succeeds exactly when the checks pass and the holds are presented. */
  lemma MockGatewayPaymentSucceedsIff(db: Db, config: Pricing.PriceConfig, members: set<nat>, screenings: map<nat, Screenings.ScreeningInfo>,
                                      memberId: nat, req: PaymentRequest, gen: Fresh)
    requires KeysUnique(db.rows)
    ensures ProcessPaymentStep(db, config, members, screenings, memberId, req, MockPayment.ProcessPayment, gen).0.Ok?
      <==> Admitted(db, config, members, screenings, memberId, req, gen.now)
           && HoldsPresented(db.rows, req.screeningId, req.seatHoldItems)
  {
    ProcessPaymentSucceedsIff(db, config, members, screenings, memberId, req, MockPayment.ProcessPayment, gen);
  }

  /**
   * A successful payment reserves every requested seat for the member with the
   * hold cleared, and touches no other seat.
   */
  lemma PaidSeatsAreReserved(db: Db, config: Pricing.PriceConfig, members: set<nat>, screenings: map<nat, Screenings.ScreeningInfo>,
                             memberId: nat, req: PaymentRequest, gateway: (int, Payments.PaymentMethod) -> bool, gen: Fresh)
    requires KeysUnique(db.rows)
    requires ProcessPaymentStep(db, config, members, screenings, memberId, req, gateway, gen).0.Ok?
    ensures var db1 := ProcessPaymentStep(db, config, members, screenings, memberId, req, gateway, gen).1;
      var sid := req.screeningId;
      && KeysUnique(db1.rows)
      && (forall i :: 0 <= i < |req.seatHoldItems| ==>
            FindRow(db.rows, sid, req.seatHoldItems[i].seatId).Some?
            && var seat := FindRow(db1.rows, sid, req.seatHoldItems[i].seatId);
            && seat.Some? && SameSeat(seat.value, FindRow(db.rows, sid, req.seatHoldItems[i].seatId).value)
            && seat.value.status == RESERVED && seat.value.reservedMember == Some(memberId) && NoHoldInfo(seat.value))
      && (forall s, u :: (s != sid || u !in SeatIdsOf(req.seatHoldItems)) ==> FindRow(db1.rows, s, u) == FindRow(db.rows, s, u))
  {
    var sid := req.screeningId;
    var items := req.seatHoldItems;
    Pricing.CalculateOk(db.rows, config, sid, SeatIdsOf(items));
    PaymentOkShape(db, config, members, screenings, memberId, req, gateway, gen);
    StartThenReserve(db.rows, sid, items, memberId);
  }

  /**
   * Starting payment on held seats and then reserving them leaves each requested seat
   * RESERVED for the member with the hold cleared, and every other seat as it was.
   */
  lemma StartThenReserve(rows: seq<SeatRecord>, sid: nat, items: seq<SeatHoldItem>, memberId: nat)
    requires KeysUnique(rows) && Distinct(SeatIdsOf(items))
    requires ApplyOrders(rows, sid, StartOrders(items)).Ok?
    ensures var started := ApplyOrders(rows, sid, StartOrders(items)).value;
      var res := ApplyOrders(started, sid, ReserveOrders(items, memberId));
      && res.Ok? && KeysUnique(res.value)
      && (forall i :: 0 <= i < |items| ==>
            FindRow(rows, sid, items[i].seatId).Some?
            && var seat := FindRow(res.value, sid, items[i].seatId);
            && seat.Some? && SameSeat(seat.value, FindRow(rows, sid, items[i].seatId).value)
            && seat.value.status == RESERVED && seat.value.reservedMember == Some(memberId) && NoHoldInfo(seat.value))
      && (forall s, u :: (s != sid || u !in SeatIdsOf(items)) ==> FindRow(res.value, s, u) == FindRow(rows, s, u))
  {
    StartOrdersSpec(rows, sid, items);
    StartedSeatsPending(rows, sid, items);
    var started := ApplyOrders(rows, sid, StartOrders(items)).value;
    ReserveOrdersSpec(started, sid, items, memberId);
  }

  /**
   * A successful payment stores one CONFIRMED reservation with one line per
   * requested seat, each priced from the server-computed map, totals that match
   * its lines and the computed total, and no hold token; one SUCCESS payment of
   * exactly that total; and answers with the reservation's own figures.
   */
  lemma PaidReservationAndPayment(db: Db, config: Pricing.PriceConfig, members: set<nat>, screenings: map<nat, Screenings.ScreeningInfo>,
                                  memberId: nat, req: PaymentRequest, gateway: (int, Payments.PaymentMethod) -> bool, gen: Fresh)
    requires ProcessPaymentStep(db, config, members, screenings, memberId, req, gateway, gen).0.Ok?
    ensures var (r, db1) := ProcessPaymentStep(db, config, members, screenings, memberId, req, gateway, gen);
      var price := PriceOf(db, config, req).value;
      var items := req.seatHoldItems;
      && gen.reservationId in db1.reservations
      && var res := db1.reservations[gen.reservationId];
      && res.status == Reservations.CONFIRMED && res.memberId == memberId && res.screeningId == req.screeningId
      && res.holdToken.None? && res.id == gen.reservationId
      && |res.lines| == |items|
      && (forall i :: 0 <= i < |items| ==>
            items[i].seatId in price.priceBySeatId
            && res.lines[i] == Reservations.ReservationLine(req.screeningId, items[i].seatId, price.priceBySeatId[items[i].seatId]))
      && Reservations.TotalsConsistent(res) && res.totalSeats == |items| && res.totalAmount == price.totalAmount
      && (forall k :: k in db.reservations && k != gen.reservationId ==> k in db1.reservations && db1.reservations[k] == db.reservations[k])
      && PaymentIndex(db1.payments, gen.paymentId) < |db1.payments|
      && var pay := db1.payments[PaymentIndex(db1.payments, gen.paymentId)];
      && pay.payStatus == Payments.SUCCESS && pay.payAmount == price.totalAmount && pay.reservationId == gen.reservationId
      && pay.payMethod == req.payMethod && pay.pgTransactionId == Some(PgTransactionId(gen.now))
      && r.value == PaymentResponse(gen.reservationId, res.reservationNo, req.screeningId, res.totalSeats, res.totalAmount)
  {
    PaymentOkShape(db, config, members, screenings, memberId, req, gateway, gen);
    PricedItems(db, config, req);
    var step := ProcessPaymentStep(db, config, members, screenings, memberId, req, gateway, gen);
    var price := PriceOf(db, config, req).value;
    var booked := BookedReservation(memberId, req, price.priceBySeatId, gen);
    assert step.1.reservations[gen.reservationId] == booked;
    var paid := PaidPayment(req, price.totalAmount, gen);
    var payments := StorePayment(StorePayment(db.payments, PendingPayment(req, price.totalAmount, gen)), paid);
    assert step.1.payments == payments;
    assert payments[PaymentIndex(payments, gen.paymentId)] == paid;
  }

  /** Saving the new payment, then saving it again as paid, appends one row: the paid one. */
  lemma NewPaymentAppendedOnce(payments: seq<Payments.PaymentRecord>, req: PaymentRequest, amount: int, gen: Fresh)
    requires forall j :: 0 <= j < |payments| ==> payments[j].id != gen.paymentId
    ensures StorePayment(StorePayment(payments, PendingPayment(req, amount, gen)), PaidPayment(req, amount, gen))
            == payments + [PaidPayment(req, amount, gen)]
  {
    var p0 := PendingPayment(req, amount, gen);
    assert PaymentIndex(payments, gen.paymentId) == |payments|;
    assert StorePayment(payments, p0) == payments + [p0];
    assert PaymentIndex(payments + [p0], gen.paymentId) == |payments|;
  }

  lemma PaymentOkShape(db: Db, config: Pricing.PriceConfig, members: set<nat>, screenings: map<nat, Screenings.ScreeningInfo>,
                       memberId: nat, req: PaymentRequest, gateway: (int, Payments.PaymentMethod) -> bool, gen: Fresh)
    requires ProcessPaymentStep(db, config, members, screenings, memberId, req, gateway, gen).0.Ok?
    ensures PriceOf(db, config, req).Ok?
    ensures var step := ProcessPaymentStep(db, config, members, screenings, memberId, req, gateway, gen);
      var price := PriceOf(db, config, req).value;
      var started := ApplyOrders(db.rows, req.screeningId, StartOrders(req.seatHoldItems));
      && PricedRequest(price, req)
      && started.Ok?
      && ApplyOrders(started.value, req.screeningId, ReserveOrders(req.seatHoldItems, memberId)).Ok?
      && step.1.rows == ApplyOrders(started.value, req.screeningId, ReserveOrders(req.seatHoldItems, memberId)).value
      && var booked := BookedReservation(memberId, req, price.priceBySeatId, gen);
      && step.1.reservations == db.reservations[gen.reservationId := booked]
      && step.1.payments == StorePayment(StorePayment(db.payments, PendingPayment(req, price.totalAmount, gen)), PaidPayment(req, price.totalAmount, gen))
      && step.0.value == Answer(booked, req.screeningId)
  {
    var sid := req.screeningId;
    var items := req.seatHoldItems;
    var price := PriceOf(db, config, req);
    assert price.Ok?;
    PricedItems(db, config, req);
    var step := PayPricedStep(db, price.value, memberId, req, gateway, gen);
    assert ProcessPaymentStep(db, config, members, screenings, memberId, req, gateway, gen) == step;
    var started := ApplyOrders(db.rows, sid, StartOrders(items));
    assert started.Ok?;
    assert gateway(price.value.totalAmount, req.payMethod);
    assert step == BookStep(db, started.value, price.value, memberId, req, gen);
    assert Pricing.LookupSeats(started.value, sid, SeatIdsOf(items)).Ok?;
    var reserved := ApplyOrders(started.value, sid, ReserveOrders(items, memberId));
    assert reserved.Ok?;
    BookStepOk(db, started.value, price.value, memberId, req, gen, reserved.value);
  }


  // ---------------------------------------------------------------------------
  // cancelReservation

  /** `cancelReservation`. Any exception rolls every table back. */
  function CancelReservationStep(db: Db, memberId: nat, reservationId: nat, now: int): (r: (Outcome, Db))
    ensures r.0.Fail? ==> r.1 == db
    ensures reservationId !in db.reservations ==> r.0 == Fail(RESERVATION_NOT_FOUND)
    ensures reservationId in db.reservations && db.reservations[reservationId].memberId != memberId ==> r.0 == Fail(ACCESS_DENIED)
    ensures (reservationId in db.reservations && db.reservations[reservationId].memberId == memberId
             && db.reservations[reservationId].status != Reservations.CONFIRMED) ==> r.0 == Fail(RESERVATION_CANNOT_CANCEL)
  {
    if reservationId !in db.reservations then (Fail(RESERVATION_NOT_FOUND), db)
    else
      var res := db.reservations[reservationId];
      if res.memberId != memberId then (Fail(ACCESS_DENIED), db)
      else if res.status != Reservations.CONFIRMED then (Fail(RESERVATION_CANNOT_CANCEL), db)
      else
        var cancelled := Reservations.CancelReservation(res).value;
        var k := SuccessPaymentIndex(db.payments, reservationId);
        var payments := if k == |db.payments| then db.payments
                        else db.payments[k := Payments.PaymentCancelled(db.payments[k], now).value];
        var rows := ApplyOrders(db.rows, res.screeningId, CancelOrders(res.lines));
        if rows.Err? then (Fail(rows.error), db)
        else (Pass, Db(rows.value, db.reservations[reservationId := cancelled], payments))
  }

  function LineSeats(lines: seq<Reservations.ReservationLine>): (ids: seq<nat>)
    ensures |ids| == |lines| && forall i :: 0 <= i < |lines| ==> ids[i] == lines[i].seatId
  {
    Map(lines, (l: Reservations.ReservationLine) => l.seatId)
  }

  /**
   * Cancelling a confirmed reservation of one's own whose seats are distinct
   * succeeds exactly when every seat is RESERVED; then the reservation is
   * CANCELLED, its first SUCCESS payment (if any) is CANCELLED at `now`, every
   * seat of it is CANCELLED keeping its reserving member, and no other seat changes.
   */
  lemma CancelReservationSpec(db: Db, memberId: nat, reservationId: nat, now: int)
    requires KeysUnique(db.rows)
    requires reservationId in db.reservations
    requires db.reservations[reservationId].memberId == memberId
    requires db.reservations[reservationId].status == Reservations.CONFIRMED
    requires Distinct(LineSeats(db.reservations[reservationId].lines))
    ensures var (r, db1) := CancelReservationStep(db, memberId, reservationId, now);
      var res := db.reservations[reservationId];
      var lines := res.lines;
      && (r.Pass? <==> forall i :: 0 <= i < |lines| ==>
            FindRow(db.rows, res.screeningId, lines[i].seatId).Some?
            && FindRow(db.rows, res.screeningId, lines[i].seatId).value.status == RESERVED)
      && (r.Pass? ==>
            && db1.reservations == db.reservations[reservationId := res.(status := Reservations.CANCELLED)]
            && (forall i :: 0 <= i < |lines| ==>
                  FindRow(db.rows, res.screeningId, lines[i].seatId).Some?
                  && FindRow(db1.rows, res.screeningId, lines[i].seatId)
                     == Some(FindRow(db.rows, res.screeningId, lines[i].seatId).value.(status := SeatStatus.CANCELLED)))
            && (forall s, u :: (s != res.screeningId || u !in LineSeats(lines)) ==> FindRow(db1.rows, s, u) == FindRow(db.rows, s, u))
            && var k := SuccessPaymentIndex(db.payments, reservationId);
            && |db1.payments| == |db.payments|
            && (k < |db.payments| ==> db1.payments[k] == db.payments[k].(payStatus := Payments.CANCELLED, cancelledAt := Some(now)))
            && (forall j :: 0 <= j < |db.payments| && j != k ==> db1.payments[j] == db.payments[j]))
  {
    var res := db.reservations[reservationId];
    var rows := ApplyOrders(db.rows, res.screeningId, CancelOrders(res.lines));
    CancelOrdersSpec(db.rows, res.screeningId, res.lines);
    var k := SuccessPaymentIndex(db.payments, reservationId);
    var payments := if k == |db.payments| then db.payments
                    else db.payments[k := Payments.PaymentCancelled(db.payments[k], now).value];
    var step := CancelReservationStep(db, memberId, reservationId, now);
    if rows.Ok? {
      assert step == (Pass, Db(rows.value, db.reservations[reservationId := res.(status := Reservations.CANCELLED)], payments));
    } else {
      assert step.0.Fail?;
    }
  }

  /** Cancelling the seats of a reservation: completes exactly when every seat is RESERVED, and then each is CANCELLED and nothing else changes. */
  lemma CancelOrdersSpec(rows: seq<SeatRecord>, screeningId: nat, lines: seq<Reservations.ReservationLine>)
    requires KeysUnique(rows) && Distinct(LineSeats(lines))
    ensures var res := ApplyOrders(rows, screeningId, CancelOrders(lines));
      && (res.Ok? <==> forall i :: 0 <= i < |lines| ==>
            FindRow(rows, screeningId, lines[i].seatId).Some?
            && FindRow(rows, screeningId, lines[i].seatId).value.status == RESERVED)
      && (res.Ok? ==> forall i :: 0 <= i < |lines| ==>
            FindRow(rows, screeningId, lines[i].seatId).Some?
            && FindRow(res.value, screeningId, lines[i].seatId)
               == Some(FindRow(rows, screeningId, lines[i].seatId).value.(status := SeatStatus.CANCELLED)))
      && (res.Ok? ==> OthersUnchanged(rows, res.value, screeningId, LineSeats(lines)))
  {
    var orders := CancelOrders(lines);
    assert OrderSeats(orders) == LineSeats(lines);
    ApplyOrdersSpec(rows, screeningId, orders);
    forall i | 0 <= i < |lines|
      ensures OrderApplies(rows, screeningId, orders[i]) <==>
                FindRow(rows, screeningId, lines[i].seatId).Some?
                && FindRow(rows, screeningId, lines[i].seatId).value.status == RESERVED
      ensures OrderApplies(rows, screeningId, orders[i]) ==>
                Applied(rows, screeningId, orders[i]) == FindRow(rows, screeningId, lines[i].seatId).value.(status := SeatStatus.CANCELLED)
    {
      CancelApplies(rows, screeningId, lines[i].seatId);
    }
  }

  /** A cancel command applies exactly to a RESERVED seat, and leaves it CANCELLED. */
  lemma CancelApplies(rows: seq<SeatRecord>, screeningId: nat, seatId: nat)
    ensures var o := SeatOrder(seatId, None, CancelCmd);
      && (OrderApplies(rows, screeningId, o) <==>
            FindRow(rows, screeningId, seatId).Some? && FindRow(rows, screeningId, seatId).value.status == RESERVED)
      && (OrderApplies(rows, screeningId, o) ==>
            Applied(rows, screeningId, o) == FindRow(rows, screeningId, seatId).value.(status := SeatStatus.CANCELLED))
  {
  }

  /**
   * Right after a successful payment the booking is the member's own,
   * CONFIRMED, on distinct seats that are all RESERVED for the member.
   */
  lemma PaymentLeavesCancellableBooking(db: Db, config: Pricing.PriceConfig, members: set<nat>, screenings: map<nat, Screenings.ScreeningInfo>,
                                        memberId: nat, req: PaymentRequest, gateway: (int, Payments.PaymentMethod) -> bool, gen: Fresh)
    requires KeysUnique(db.rows)
    requires ProcessPaymentStep(db, config, members, screenings, memberId, req, gateway, gen).0.Ok?
    ensures var db1 := ProcessPaymentStep(db, config, members, screenings, memberId, req, gateway, gen).1;
      var seatIds := SeatIdsOf(req.seatHoldItems);
      var sid := req.screeningId;
      && KeysUnique(db1.rows) && Distinct(seatIds)
      && gen.reservationId in db1.reservations
      && db1.reservations[gen.reservationId].memberId == memberId
      && db1.reservations[gen.reservationId].status == Reservations.CONFIRMED
      && db1.reservations[gen.reservationId].screeningId == sid
      && LineSeats(db1.reservations[gen.reservationId].lines) == seatIds
      && (forall i :: 0 <= i < |seatIds| ==>
            FindRow(db1.rows, sid, seatIds[i]).Some?
            && FindRow(db1.rows, sid, seatIds[i]).value.status == RESERVED
            && FindRow(db1.rows, sid, seatIds[i]).value.reservedMember == Some(memberId))
  {
    var sid := req.screeningId;
    var items := req.seatHoldItems;
    var seatIds := SeatIdsOf(items);
    var db1 := ProcessPaymentStep(db, config, members, screenings, memberId, req, gateway, gen).1;
    Pricing.CalculateOk(db.rows, config, sid, seatIds);
    PaidSeatsAreReserved(db, config, members, screenings, memberId, req, gateway, gen);
    PaidReservationAndPayment(db, config, members, screenings, memberId, req, gateway, gen);
    assert LineSeats(db1.reservations[gen.reservationId].lines) == seatIds;
    forall i | 0 <= i < |seatIds|
      ensures FindRow(db1.rows, sid, seatIds[i]).Some?
      ensures FindRow(db1.rows, sid, seatIds[i]).value.status == RESERVED
      ensures FindRow(db1.rows, sid, seatIds[i]).value.reservedMember == Some(memberId)
    {
      assert seatIds[i] == items[i].seatId;
    }
  }

  /** A successful payment with an unused payment id appends one row, the first SUCCESS row of the new reservation. */
  lemma PaymentAppendsFirstSuccess(db: Db, config: Pricing.PriceConfig, members: set<nat>, screenings: map<nat, Screenings.ScreeningInfo>,
                                   memberId: nat, req: PaymentRequest, gateway: (int, Payments.PaymentMethod) -> bool, gen: Fresh)
    requires forall j :: 0 <= j < |db.payments| ==> db.payments[j].id != gen.paymentId && db.payments[j].reservationId != gen.reservationId
    requires ProcessPaymentStep(db, config, members, screenings, memberId, req, gateway, gen).0.Ok?
    ensures var db1 := ProcessPaymentStep(db, config, members, screenings, memberId, req, gateway, gen).1;
      && |db1.payments| == |db.payments| + 1
      && SuccessPaymentIndex(db1.payments, gen.reservationId) == |db.payments|
      && db1.payments[|db.payments|].id == gen.paymentId
  {
    PaymentOkShape(db, config, members, screenings, memberId, req, gateway, gen);
    var amount := PriceOf(db, config, req).value.totalAmount;
    NewPaymentAppendedOnce(db.payments, req, amount, gen);
    AppendedSuccessIsFirst(db.payments, PaidPayment(req, amount, gen));
  }

  /** A SUCCESS row appended for a reservation no earlier row belongs to is that reservation's first SUCCESS row. */
  lemma {:induction false} AppendedSuccessIsFirst(payments: seq<Payments.PaymentRecord>, p: Payments.PaymentRecord)
    requires p.payStatus == Payments.SUCCESS
    requires forall j :: 0 <= j < |payments| ==> payments[j].reservationId != p.reservationId
    ensures SuccessPaymentIndex(payments + [p], p.reservationId) == |payments|
    decreases |payments|
  {
    if payments != [] {
      assert (payments + [p])[1..] == payments[1..] + [p];
      AppendedSuccessIsFirst(payments[1..], p);
    }
  }

  /**
   * The outcome of cancelling a booking just paid for: the cancellation passes, the reservation
   * is CANCELLED, every requested seat is CANCELLED and still names the member, and the one
   * payment row added by the payment is CANCELLED.
   */
  predicate CancelledAfterPayment(paymentsBefore: nat, memberId: nat, req: PaymentRequest, gen: Fresh, outcome: (Outcome, Db))
  {
    var (r, db2) := outcome;
    && r.Pass?
    && gen.reservationId in db2.reservations
    && db2.reservations[gen.reservationId].status == Reservations.CANCELLED
    && (forall i :: 0 <= i < |req.seatHoldItems| ==>
          FindRow(db2.rows, req.screeningId, req.seatHoldItems[i].seatId).Some?
          && FindRow(db2.rows, req.screeningId, req.seatHoldItems[i].seatId).value.status == SeatStatus.CANCELLED
          && FindRow(db2.rows, req.screeningId, req.seatHoldItems[i].seatId).value.reservedMember == Some(memberId))
    && |db2.payments| == paymentsBefore + 1
    && db2.payments[paymentsBefore].payStatus == Payments.CANCELLED
    && db2.payments[paymentsBefore].id == gen.paymentId
  }

  /**
   * Pay then cancel: right after a successful payment (with ids the payment
   * table has not used), the payer can cancel the booking; every booked seat
   * ends CANCELLED, the reservation CANCELLED, and the new payment CANCELLED.
   */
  lemma PayThenCancel(db: Db, config: Pricing.PriceConfig, members: set<nat>, screenings: map<nat, Screenings.ScreeningInfo>,
                      memberId: nat, req: PaymentRequest, gateway: (int, Payments.PaymentMethod) -> bool, gen: Fresh, later: int)
    requires KeysUnique(db.rows)
    requires forall j :: 0 <= j < |db.payments| ==> db.payments[j].id != gen.paymentId && db.payments[j].reservationId != gen.reservationId
    requires ProcessPaymentStep(db, config, members, screenings, memberId, req, gateway, gen).0.Ok?
    ensures CancelledAfterPayment(|db.payments|, memberId, req, gen,
              CancelReservationStep(ProcessPaymentStep(db, config, members, screenings, memberId, req, gateway, gen).1,
                                    memberId, gen.reservationId, later))
  {
    var db1 := ProcessPaymentStep(db, config, members, screenings, memberId, req, gateway, gen).1;
    PaymentLeavesCancellableBooking(db, config, members, screenings, memberId, req, gateway, gen);
    PaymentAppendsFirstSuccess(db, config, members, screenings, memberId, req, gateway, gen);
    CancelJustPaid(db1, |db.payments|, memberId, req, gen, later);
  }

  /** Cancelling the booking a payment has just confirmed, stated on the database the payment left. */
  lemma CancelJustPaid(db1: Db, paymentsBefore: nat, memberId: nat, req: PaymentRequest, gen: Fresh, later: int)
    requires KeysUnique(db1.rows) && Distinct(SeatIdsOf(req.seatHoldItems))
    requires gen.reservationId in db1.reservations
    requires db1.reservations[gen.reservationId].memberId == memberId
    requires db1.reservations[gen.reservationId].status == Reservations.CONFIRMED
    requires db1.reservations[gen.reservationId].screeningId == req.screeningId
    requires LineSeats(db1.reservations[gen.reservationId].lines) == SeatIdsOf(req.seatHoldItems)
    requires forall i :: 0 <= i < |SeatIdsOf(req.seatHoldItems)| ==>
      FindRow(db1.rows, req.screeningId, SeatIdsOf(req.seatHoldItems)[i]).Some?
      && FindRow(db1.rows, req.screeningId, SeatIdsOf(req.seatHoldItems)[i]).value.status == RESERVED
      && FindRow(db1.rows, req.screeningId, SeatIdsOf(req.seatHoldItems)[i]).value.reservedMember == Some(memberId)
    requires |db1.payments| == paymentsBefore + 1
    requires SuccessPaymentIndex(db1.payments, gen.reservationId) == paymentsBefore
    requires db1.payments[paymentsBefore].id == gen.paymentId
    ensures CancelledAfterPayment(paymentsBefore, memberId, req, gen, CancelReservationStep(db1, memberId, gen.reservationId, later))
  {
    var seatIds := SeatIdsOf(req.seatHoldItems);
    CancelBookedReservation(db1, memberId, gen.reservationId, later, req.screeningId, seatIds, paymentsBefore);
    var db2 := CancelReservationStep(db1, memberId, gen.reservationId, later).1;
    forall i | 0 <= i < |req.seatHoldItems|
      ensures FindRow(db2.rows, req.screeningId, req.seatHoldItems[i].seatId).Some?
      ensures FindRow(db2.rows, req.screeningId, req.seatHoldItems[i].seatId).value.status == SeatStatus.CANCELLED
      ensures FindRow(db2.rows, req.screeningId, req.seatHoldItems[i].seatId).value.reservedMember == Some(memberId)
    {
      assert seatIds[i] == req.seatHoldItems[i].seatId;
    }
  }

  /** Cancelling a confirmed booking of one's own whose seats are all RESERVED for the member. */
  lemma CancelBookedReservation(db: Db, memberId: nat, reservationId: nat, now: int, screeningId: nat, seatIds: seq<nat>, n: nat)
    requires KeysUnique(db.rows) && Distinct(seatIds)
    requires reservationId in db.reservations
    requires db.reservations[reservationId].memberId == memberId
    requires db.reservations[reservationId].status == Reservations.CONFIRMED
    requires db.reservations[reservationId].screeningId == screeningId
    requires LineSeats(db.reservations[reservationId].lines) == seatIds
    requires forall i :: 0 <= i < |seatIds| ==>
      FindRow(db.rows, screeningId, seatIds[i]).Some?
      && FindRow(db.rows, screeningId, seatIds[i]).value.status == RESERVED
      && FindRow(db.rows, screeningId, seatIds[i]).value.reservedMember == Some(memberId)
    requires n == SuccessPaymentIndex(db.payments, reservationId) < |db.payments|
    ensures var (r, db1) := CancelReservationStep(db, memberId, reservationId, now);
      && r.Pass?
      && db1.reservations[reservationId].status == Reservations.CANCELLED
      && (forall i :: 0 <= i < |seatIds| ==>
            FindRow(db1.rows, screeningId, seatIds[i]).Some?
            && FindRow(db1.rows, screeningId, seatIds[i]).value.status == SeatStatus.CANCELLED
            && FindRow(db1.rows, screeningId, seatIds[i]).value.reservedMember == Some(memberId))
      && |db1.payments| == |db.payments|
      && db1.payments[n].payStatus == Payments.CANCELLED && db1.payments[n].id == db.payments[n].id
  {
    CancelReservationSpec(db, memberId, reservationId, now);
  }

  /** When the lookup and every reservation succeed, the booking's result is the confirmed reservation and the paid payment. */
  lemma BookStepOk(db: Db, started: seq<SeatRecord>, price: Pricing.PriceResult, memberId: nat, req: PaymentRequest, gen: Fresh,
                   reserved: seq<SeatRecord>)
    requires PricedRequest(price, req)
    requires Pricing.LookupSeats(started, req.screeningId, SeatIdsOf(req.seatHoldItems)).Ok?
    requires ApplyOrders(started, req.screeningId, ReserveOrders(req.seatHoldItems, memberId)) == Ok(reserved)
    ensures var booked := BookedReservation(memberId, req, price.priceBySeatId, gen);
      BookStep(db, started, price, memberId, req, gen)
      == (Ok(Answer(booked, req.screeningId)),
          Db(reserved, db.reservations[gen.reservationId := booked],
             StorePayment(StorePayment(db.payments, PendingPayment(req, price.totalAmount, gen)), PaidPayment(req, price.totalAmount, gen))))
  {
  }

  /** The reservation entity as built and moved to payment is the specified started reservation. */
  lemma StartedMatches(memberId: nat, req: PaymentRequest, gen: Fresh, started: Reservations.ReservationRecord)
    requires req.seatHoldItems != []
    requires var r0 := Reservations.NewReservation(gen.reservationId, gen.reservationNo, memberId, req.screeningId, Some(req.seatHoldItems[0].holdToken));
      started == Reservations.After(Reservations.StartReservationPayment(r0), r0)
    ensures started == StartedReservation(memberId, req, gen) && started.id == gen.reservationId
  {
  }

  /** Confirming the reservation with all its lines gives the specified booked reservation. */
  lemma ConfirmedMatches(memberId: nat, req: PaymentRequest, prices: map<nat, int>, gen: Fresh,
                         paid: Reservations.ReservationRecord, confirmed: Reservations.ReservationRecord)
    requires req.seatHoldItems != []
    requires forall i :: 0 <= i < |req.seatHoldItems| ==> req.seatHoldItems[i].seatId in prices
    requires paid == AddLines(StartedReservation(memberId, req, gen), LinesFor(req.screeningId, SeatIdsOf(req.seatHoldItems), prices))
    requires confirmed == Reservations.After(Reservations.ConfirmReservation(paid), paid)
    ensures confirmed == BookedReservation(memberId, req, prices, gen) && confirmed.id == paid.id == gen.reservationId
  {
  }

  /** The payment entity, saved PENDING and then marked successful, is the specified paid payment. */
  lemma PaymentMatches(req: PaymentRequest, amount: int, gen: Fresh, succeeded: Payments.PaymentRecord)
    requires var pending := Payments.NewPayment(gen.paymentId, gen.paymentNo, gen.reservationId, req.payMethod, amount);
      succeeded == Payments.After(Payments.PaymentSucceeded(pending, PgTransactionId(gen.now), gen.now), pending)
    ensures succeeded == PaidPayment(req, amount, gen)
  {
  }

  /** The `forEach` over the looked-up seats: one `addSeat` per seat, priced from the server-computed map. */
  method AddSeats(reservation: Reservations.Reservation, screeningId: nat, screeningSeats: seq<SeatRecord>,
                  seatIds: seq<nat>, prices: map<nat, int>)
    requires |screeningSeats| == |seatIds|
    requires forall i :: 0 <= i < |seatIds| ==> screeningSeats[i].SeatId() == seatIds[i] && seatIds[i] in prices
    modifies reservation
    ensures reservation.Record() == AddLines(old(reservation.Record()), LinesFor(screeningId, seatIds, prices))
  {
    var lines := LinesFor(screeningId, seatIds, prices);
    var j := 0;
    while j < |screeningSeats|
      invariant 0 <= j <= |screeningSeats|
      invariant reservation.Record() == AddLines(old(reservation.Record()), lines[..j])
    {
      var ss := screeningSeats[j];
      reservation.AddSeat(Reservations.ReservationLine(screeningId, ss.SeatId(), prices[ss.SeatId()]));
      assert lines[..j + 1][..j] == lines[..j];
      j := j + 1;
    }
    assert lines[..j] == lines;
  }

  // ---------------------------------------------------------------------------
  // The service

  /**
   * The service over its repositories. Members and screenings are only read;
   * `gateway` stands for `MockPaymentService.processPayment`.
   */
  class ReservationPaymentService {
    const seats: ScreeningSeatRepository
    const config: Pricing.PriceConfig
    const members: set<nat>
    const screenings: map<nat, Screenings.ScreeningInfo>
    const gateway: (int, Payments.PaymentMethod) -> bool
    var reservations: map<nat, Reservations.ReservationRecord>
    var payments: seq<Payments.PaymentRecord>

    predicate Valid()
      reads this, seats
    {
      seats.Valid()
    }

    function Tables(): Db
      reads this, seats
    {
      Db(seats.rows, reservations, payments)
    }

    constructor (seats: ScreeningSeatRepository, config: Pricing.PriceConfig, members: set<nat>,
                 screenings: map<nat, Screenings.ScreeningInfo>, gateway: (int, Payments.PaymentMethod) -> bool)
      requires seats.Valid()
      ensures Valid() && this.seats == seats && this.config == config && this.members == members
      ensures this.screenings == screenings && this.gateway == gateway
      ensures reservations == map[] && payments == []
    {
      this.seats := seats;
      this.config := config;
      this.members := members;
      this.screenings := screenings;
      this.gateway := gateway;
      reservations := map[];
      payments := [];
    }

    /** One per-seat command of the seat service: look the seat up, check the token, apply the transition, save. */
    method ApplySeatOrder(screeningId: nat, o: SeatOrder) returns (outcome: Outcome)
      requires Valid()
      modifies seats
      ensures Valid()
      ensures var res := ApplyOrder(old(seats.rows), screeningId, o);
        && (outcome.Pass? <==> res.Ok?)
        && (res.Err? ==> outcome == Fail(res.error) && seats.rows == old(seats.rows))
        && (res.Ok? ==> seats.rows == res.value)
    {
      var found := seats.FindByScreeningIdAndSeatId(screeningId, o.seatId);
      if found.None? {
        return Fail(SEAT_NOT_FOUND);
      }
      if o.token.Some? && !ValidateHoldToken(found.value, o.token.value) {
        return Fail(INVALID_HOLD_TOKEN);
      }
      var next := Step(found.value, o.cmd);
      if next.Err? {
        return Fail(next.error);
      }
      seats.Save(next.value);
      outcome := Pass;
    }

    /** A `for` loop of per-seat commands; the first that throws ends it. */
    method ApplySeatOrders(screeningId: nat, orders: seq<SeatOrder>) returns (outcome: Outcome)
      requires Valid()
      modifies seats
      ensures Valid()
      ensures var res := ApplyOrders(old(seats.rows), screeningId, orders);
        && (outcome.Pass? <==> res.Ok?)
        && (res.Err? ==> outcome == Fail(res.error))
        && (res.Ok? ==> seats.rows == res.value)
    {
      var i := 0;
      assert orders[0..] == orders;
      while i < |orders|
        invariant 0 <= i <= |orders| && Valid()
        invariant ApplyOrders(seats.rows, screeningId, orders[i..]) == ApplyOrders(old(seats.rows), screeningId, orders)
      {
        assert orders[i..][0] == orders[i] && orders[i..][1..] == orders[i + 1..];
        outcome := ApplySeatOrder(screeningId, orders[i]);
        if outcome.Fail? {
          return;
        }
        i := i + 1;
      }
      assert orders[i..] == [];
      outcome := Pass;
    }

    /** The transaction rolling back: every table returns to the snapshot taken when the call began. */
    method Rollback(snapshot: Db)
      requires KeysUnique(snapshot.rows)
      modifies this, seats
      ensures Valid() && Tables() == snapshot
    {
      seats.rows := snapshot.rows;
      reservations := snapshot.reservations;
      payments := snapshot.payments;
    }

    /** `processPayment(memberId, request)`; `gen` supplies the generated ids and numbers and the clock. */
    method ProcessPayment(memberId: nat, req: PaymentRequest, gen: Fresh) returns (r: Result<PaymentResponse>)
      requires Valid()
      modifies this, seats
      ensures Valid()
      ensures (r, Tables()) == ProcessPaymentStep(old(Tables()), config, members, screenings, memberId, req, gateway, gen)
    {
      var sid := req.screeningId;
      if memberId !in members {
        return Err(MEMBER_NOT_FOUND);
      }
      if sid !in screenings {
        return Err(SCREENING_NOT_FOUND);
      }
      if !Screenings.IsBookable(screenings[sid], gen.now) {
        return Err(SCREENING_NOT_BOOKABLE);
      }
      var seatIds := SeatIdsOf(req.seatHoldItems);
      var price := Pricing.Calculate(seats.rows, config, sid, seatIds);
      if price.Err? {
        return Err(price.error);
      }
      PricedItems(Tables(), config, req);
      r := PayPriced(price.value, memberId, req, gen);
    }

    /** The seats are priced: start payment on each, then ask the gateway. */
    method PayPriced(price: Pricing.PriceResult, memberId: nat, req: PaymentRequest, gen: Fresh) returns (r: Result<PaymentResponse>)
      requires Valid() && PricedRequest(price, req)
      modifies this, seats
      ensures Valid()
      ensures (r, Tables()) == PayPricedStep(old(Tables()), price, memberId, req, gateway, gen)
    {
      var snapshot := Tables();
      var sid := req.screeningId;
      var items := req.seatHoldItems;
      var outcome := ApplySeatOrders(sid, StartOrders(items));
      if outcome.Fail? {
        Rollback(snapshot);
        return Err(outcome.error);
      }
      var paySuccess := gateway(price.totalAmount, req.payMethod);
      if !paySuccess {
        outcome := ApplySeatOrders(sid, ReleaseOrders(items));
        Rollback(snapshot);
        return Err(if outcome.Fail? then outcome.error else PAYMENT_FAILED);
      }
      r := Book(snapshot, price, memberId, req, gen);
    }

    /** The gateway approved: build the reservation with one line per seat, save it, save the payment as PENDING then SUCCESS. */
    method Book(snapshot: Db, price: Pricing.PriceResult, memberId: nat, req: PaymentRequest, gen: Fresh) returns (r: Result<PaymentResponse>)
      requires Valid() && PricedRequest(price, req) && KeysUnique(snapshot.rows)
      requires reservations == snapshot.reservations && payments == snapshot.payments
      modifies this, seats
      ensures Valid()
      ensures (r, Tables()) == BookStep(snapshot, old(seats.rows), price, memberId, req, gen)
    {
      var sid := req.screeningId;
      var items := req.seatHoldItems;
      var seatIds := SeatIdsOf(items);
      var prices := price.priceBySeatId;

      ghost var started := seats.rows;
      var reservation := new Reservations.Reservation(gen.reservationId, gen.reservationNo, memberId, sid, Some(items[0].holdToken));
      var _ := reservation.StartPayment();
      StartedMatches(memberId, req, gen, reservation.Record());
      ghost var startedRes := reservation.Record();

      assert seats.rows == started;
      var looked := Pricing.LookupSeats(seats.rows, sid, seatIds);
      if looked.Err? {
        assert BookStep(snapshot, started, price, memberId, req, gen) == (Err(looked.error), snapshot);
        Rollback(snapshot);
        return Err(looked.error);
      }
      AddSeats(reservation, sid, looked.value, seatIds, prices);
      ghost var paid := reservation.Record();
      assert paid == AddLines(startedRes, LinesFor(sid, seatIds, prices));
      ghost var booked := BookedReservation(memberId, req, prices, gen);
      ConfirmedMatches(memberId, req, prices, gen, paid, Reservations.After(Reservations.ConfirmReservation(paid), paid));
      ghost var reserved := ApplyOrders(started, sid, ReserveOrders(items, memberId));
      r := SaveAndReserve(snapshot, reservation, memberId, req, price.totalAmount, gen, booked);
      if reserved.Ok? {
        BookStepOk(snapshot, started, price, memberId, req, gen, reserved.value);
      } else {
        assert BookStep(snapshot, started, price, memberId, req, gen) == (Err(reserved.error), snapshot);
      }
    }

    /** Save the reservation with its lines and the payment, then reserve the seats and confirm. */
    method SaveAndReserve(snapshot: Db, reservation: Reservations.Reservation, memberId: nat, req: PaymentRequest,
                          amount: int, gen: Fresh, ghost booked: Reservations.ReservationRecord)
      returns (r: Result<PaymentResponse>)
      requires Valid() && KeysUnique(snapshot.rows)
      requires reservation.id == gen.reservationId
      requires Reservations.After(Reservations.ConfirmReservation(reservation.Record()), reservation.Record()) == booked
      requires reservations == snapshot.reservations && payments == snapshot.payments
      modifies this, seats, reservation
      ensures Valid()
      ensures var res := ApplyOrders(old(seats.rows), req.screeningId, ReserveOrders(req.seatHoldItems, memberId));
        && (res.Err? ==> r == Err(res.error) && Tables() == snapshot)
        && (res.Ok? ==> r == Ok(Answer(booked, req.screeningId))
                        && Tables() == Db(res.value, snapshot.reservations[booked.id := booked],
                                          StorePayment(StorePayment(snapshot.payments, PendingPayment(req, amount, gen)), PaidPayment(req, amount, gen))))
    {
      reservations := reservations[reservation.id := reservation.Record()];
      SavePayment(reservation.id, amount, req, gen);
      r := ReserveAndConfirm(snapshot, reservation, memberId, req, booked);
    }

    /** The payment is saved PENDING, marked successful with the gateway's transaction id, and saved again. */
    method SavePayment(reservationId: nat, amount: int, req: PaymentRequest, gen: Fresh)
      requires reservationId == gen.reservationId
      modifies this`payments
      ensures payments == StorePayment(StorePayment(old(payments), PendingPayment(req, amount, gen)), PaidPayment(req, amount, gen))
    {
      var payment := new Payments.Payment(gen.paymentId, gen.paymentNo, reservationId, req.payMethod, amount);
      payments := StorePayment(payments, payment.Record());
      var _ := payment.Success(PgTransactionId(gen.now), gen.now);
      payments := StorePayment(payments, payment.Record());
      PaymentMatches(req, amount, gen, payment.Record());
    }

    /**
     * The rest of `processPayment`: reserve each seat, then confirm the saved reservation,
     * save it again and answer; `booked` is what confirming turns the saved reservation into.
     */
    method ReserveAndConfirm(snapshot: Db, reservation: Reservations.Reservation, memberId: nat, req: PaymentRequest,
                             ghost booked: Reservations.ReservationRecord)
      returns (r: Result<PaymentResponse>)
      requires Valid() && KeysUnique(snapshot.rows)
      requires Reservations.After(Reservations.ConfirmReservation(reservation.Record()), reservation.Record()) == booked
      requires reservations == snapshot.reservations[reservation.id := reservation.Record()]
      modifies this, seats, reservation
      ensures Valid()
      ensures var res := ApplyOrders(old(seats.rows), req.screeningId, ReserveOrders(req.seatHoldItems, memberId));
        && (res.Err? ==> r == Err(res.error) && Tables() == snapshot)
        && (res.Ok? ==> r == Ok(Answer(booked, req.screeningId))
                        && Tables() == Db(res.value, snapshot.reservations[booked.id := booked], old(payments)))
    {
      var outcome := ApplySeatOrders(req.screeningId, ReserveOrders(req.seatHoldItems, memberId));
      if outcome.Fail? {
        Rollback(snapshot);
        return Err(outcome.error);
      }
      var _ := reservation.Confirm();
      reservations := reservations[reservation.id := reservation.Record()];
      r := Ok(PaymentResponse(reservation.id, reservation.reservationNo, req.screeningId, reservation.totalSeats, reservation.totalAmount));
    }

    /** `cancelReservation(memberId, reservationId)`; `now` stands for the clock the payment's cancel reads. */
    method CancelReservation(memberId: nat, reservationId: nat, now: int) returns (outcome: Outcome)
      requires Valid()
      modifies this, seats
      ensures Valid()
      ensures (outcome, Tables()) == CancelReservationStep(old(Tables()), memberId, reservationId, now)
    {
      var snapshot := Tables();
      if reservationId !in reservations {
        return Fail(RESERVATION_NOT_FOUND);
      }
      var reservation := reservations[reservationId];
      if reservation.memberId != memberId {
        return Fail(ACCESS_DENIED);
      }
      if reservation.status != Reservations.CONFIRMED {
        return Fail(RESERVATION_CANNOT_CANCEL);
      }
      var cancelled := Reservations.CancelReservation(reservation).value;
      var k := SuccessPaymentIndex(payments, reservationId);
      if k < |payments| {
        payments := payments[k := Payments.PaymentCancelled(payments[k], now).value];
      }
      outcome := ApplySeatOrders(reservation.screeningId, CancelOrders(reservation.lines));
      if outcome.Fail? {
        Rollback(snapshot);
        return;
      }
      reservations := reservations[reservationId := cancelled];
    }
  }
}
