/**
 * The administrator's reservation pages (domain/admin/service/AdminReservationService.java):
 * a filtered listing of one fetched page, the cancelled-reservations listing built on it, and
 * the detail view with its seat names.
 */
module AdminReservations {
  import opened Common
  import opened Seqs
  import opened Text
  import opened Seats
  import opened Reservations
  import opened JoinedRows

  /** A reserved seat as the detail view reads it: the seat row and the price paid for it. */
  datatype SeatLine = SeatLine(seat: SeatInfo, price: int)

  /** A reservation as the listing reads it through its associations. */
  datatype ReservationView = ReservationView(
    booking: BookingRow,
    memberLoginId: string,
    movieTitle: string,
    screenName: string,
    startTime: int,
    seatLines: seq<SeatLine>)

  /** `ReservationListResponse`. */
  datatype ReservationListItem = ReservationListItem(
    reservationId: nat,
    reservationNo: string,
    status: ReservationStatus,
    memberId: nat,
    memberLoginId: string,
    screeningId: nat,
    movieTitle: string,
    screenName: string,
    startTime: int,
    totalSeats: int,
    totalAmount: int,
    createdAt: int)

  /** `ReservationDetailResponse.SeatItem`. */
  datatype SeatItem = SeatItem(seatId: nat, rowLabel: string, seatNo: int, displayName: string, price: int)

  /** `ReservationDetailResponse`. */
  datatype ReservationDetail = ReservationDetail(
    reservationId: nat,
    reservationNo: string,
    status: ReservationStatus,
    memberId: nat,
    screeningId: nat,
    movieTitle: string,
    screenName: string,
    startTime: int,
    totalSeats: int,
    totalAmount: int,
    seats: seq<SeatItem>,
    createdAt: int)

  /** The optional filters of `getReservations`; dates are day numbers. */
  datatype ReservationFilter = ReservationFilter(
    startDate: Option<int>,
    endDate: Option<int>,
    movieId: Option<nat>,
    memberId: Option<nat>,
    status: Option<ReservationStatus>)

  /** The five stream filters, the date one with its end bound corrected (see `InDateRange`). */
  predicate MatchesFilter(f: ReservationFilter, v: ReservationView)
  {
    && InDateRange(v.booking.createdAt, f.startDate, f.endDate)
    && (f.movieId.None? || v.booking.movieId == f.movieId.value)
    && (f.memberId.None? || v.booking.reservation.memberId == f.memberId.value)
    && (f.status.None? || v.booking.reservation.status == f.status.value)
  }

  function Matching(f: ReservationFilter): ReservationView -> bool
  {
    (v: ReservationView) => MatchesFilter(f, v)
  }

  /** `toListResponse`. */
  function ToListItem(v: ReservationView): ReservationListItem
  {
    var r := v.booking.reservation;
    ReservationListItem(r.id, r.reservationNo, r.status, r.memberId, v.memberLoginId, r.screeningId,
                        v.movieTitle, v.screenName, v.startTime, r.totalSeats, r.totalAmount, v.booking.createdAt)
  }

  /** `getReservations`: `page` is the content `findAll(pageable)` fetched. */
  function GetReservations(page: seq<ReservationView>, f: ReservationFilter): (r: ListPage<ReservationListItem>)
    ensures r.total == |r.content| <= |page|
  {
    var filtered := Filter(page, Matching(f));
    ListPage(Map(filtered, ToListItem), |filtered|)
  }

  /**
   * The listing keeps, in page order, the item of every fetched reservation created on a day
   * between the two dates and equal to each filter that is present, and of no other.
   */
  lemma GetReservationsSpec(page: seq<ReservationView>, f: ReservationFilter)
    ensures var r := GetReservations(page, f);
      && r.total == |r.content|
      && (exists kept :: SubsequenceOf(kept, page) && r.content == Map(kept, ToListItem))
      && (forall v :: v in page ==>
            (MatchesFilter(f, v) ==> ToListItem(v) in r.content))
      && (forall i :: 0 <= i < |r.content| ==> exists v :: v in page && MatchesFilter(f, v) && r.content[i] == ToListItem(v))
      && (forall v :: v in page ==>
            (MatchesFilter(f, v) <==>
               && (f.startDate.None? || f.startDate.value <= DayOf(v.booking.createdAt))
               && (f.endDate.None? || DayOf(v.booking.createdAt) <= f.endDate.value)
               && (f.movieId.None? || v.booking.movieId == f.movieId.value)
               && (f.memberId.None? || v.booking.reservation.memberId == f.memberId.value)
               && (f.status.None? || v.booking.reservation.status == f.status.value)))
  {
    var filtered := Filter(page, Matching(f));
    var r := GetReservations(page, f);
    FilterIsSubsequence(page, Matching(f));
    forall v | v in page && MatchesFilter(f, v) ensures ToListItem(v) in r.content {
      var i :| 0 <= i < |filtered| && filtered[i] == v;
      assert r.content[i] == ToListItem(v);
    }
    forall i | 0 <= i < |r.content| ensures exists v :: v in page && MatchesFilter(f, v) && r.content[i] == ToListItem(v) {
      assert filtered[i] in filtered;
    }
    forall v | v in page {
      InDateRangeMeansDays(v.booking.createdAt, f.startDate, f.endDate);
    }
  }

  /** With every filter absent, the whole page is listed. */
  lemma NoFilterListsPage(page: seq<ReservationView>)
    ensures GetReservations(page, ReservationFilter(None, None, None, None, None)).content == Map(page, ToListItem)
  {
    FilterKeepsAll(page, Matching(ReservationFilter(None, None, None, None, None)));
  }

  function IsCancelled(item: ReservationListItem): bool
  {
    item.status == CANCELLED
  }

  /** `getCancelledReservations`: the listing with status CANCELLED and no movie or member filter. */
  function GetCancelledReservations(page: seq<ReservationView>, startDate: Option<int>, endDate: Option<int>)
    : ListPage<ReservationListItem>
  {
    GetReservations(page, ReservationFilter(startDate, endDate, None, None, Some(CANCELLED)))
  }

  /** The cancelled listing is the unfiltered-by-status listing with its non-cancelled items removed. */
  lemma CancelledIsStatusFiltered(page: seq<ReservationView>, startDate: Option<int>, endDate: Option<int>)
    ensures var r := GetCancelledReservations(page, startDate, endDate);
      && (forall i :: 0 <= i < |r.content| ==> r.content[i].status == CANCELLED)
      && r.content == Filter(GetReservations(page, ReservationFilter(startDate, endDate, None, None, None)).content, IsCancelled)
  {
    var any := ReservationFilter(startDate, endDate, None, None, None);
    var cancelled := ReservationFilter(startDate, endDate, None, None, Some(CANCELLED));
    var isCancelledView := (v: ReservationView) => IsCancelled(ToListItem(v));
    FilterMap(Filter(page, Matching(any)), ToListItem, IsCancelled, isCancelledView);
    FilterFilter(page, Matching(any), isCancelledView, Matching(cancelled));
  }

  /** `displayName`: the row label, a dash and the seat number. */
  function SeatDisplayName(rowLabel: string, seatNo: int): string
  {
    rowLabel + "-" + IntToString(seatNo)
  }

  /** The characters after the last dash of `s` (all of `s` when it has none). */
  function AfterLastDash(s: string): string
  {
    if s == [] then []
    else if s[|s| - 1] == '-' then []
    else AfterLastDash(s[..|s| - 1]) + [s[|s| - 1]]
  }

  /** A name built with a dash before a dash-free suffix gives that suffix back. */
  lemma {:induction false} AfterLastDashOfName(row: string, d: string)
    requires forall i :: 0 <= i < |d| ==> d[i] != '-'
    ensures AfterLastDash(row + "-" + d) == d
    decreases |d|
  {
    var n := row + "-" + d;
    if d != [] {
      var d' := d[..|d| - 1];
      assert n[..|n| - 1] == row + "-" + d';
      AfterLastDashOfName(row, d');
    }
  }

  /** With the dash, two seats with non-negative numbers never share a name, whatever their rows. */
  lemma SeatDisplayNameInjective(row1: string, no1: nat, row2: string, no2: nat)
    ensures SeatDisplayName(row1, no1) == SeatDisplayName(row2, no2) <==> row1 == row2 && no1 == no2
  {
    var d1, d2 := NatToString(no1), NatToString(no2);
    assert SeatDisplayName(row1, no1) == row1 + "-" + d1;
    assert SeatDisplayName(row2, no2) == row2 + "-" + d2;
    DigitsHaveNoDash(d1);
    DigitsHaveNoDash(d2);
    DashNameInjective(row1, d1, row2, d2);
    if d1 == d2 {
      NatToStringInjective(no1, no2);
    }
  }

  lemma DigitsHaveNoDash(d: string)
    requires AllDigits(d)
    ensures forall i :: 0 <= i < |d| ==> d[i] != '-'
  {
    forall i | 0 <= i < |d|
      ensures d[i] != '-'
    {
      assert IsDigit(d[i]);
    }
  }

  /** Names with a dash before dash-free suffixes are equal only when both parts are. */
  lemma DashNameInjective(row1: string, d1: string, row2: string, d2: string)
    requires forall i :: 0 <= i < |d1| ==> d1[i] != '-'
    requires forall i :: 0 <= i < |d2| ==> d2[i] != '-'
    ensures row1 + "-" + d1 == row2 + "-" + d2 <==> row1 == row2 && d1 == d2
  {
    var n1, n2 := row1 + "-" + d1, row2 + "-" + d2;
    if n1 == n2 {
      AfterLastDashOfName(row1, d1);
      AfterLastDashOfName(row2, d2);
      assert |row1| == |row2|;
      assert row1 == n1[..|row1|] && row2 == n2[..|row2|];
    }
  }

  function ToSeatItem(line: SeatLine): SeatItem
  {
    SeatItem(line.seat.id, line.seat.rowLabel, line.seat.seatNo, SeatDisplayName(line.seat.rowLabel, line.seat.seatNo), line.price)
  }

  /** `toDetailResponse`. */
  function ToDetail(v: ReservationView): (d: ReservationDetail)
    ensures |d.seats| == |v.seatLines|
    ensures forall i :: 0 <= i < |d.seats| ==>
              && d.seats[i].seatId == v.seatLines[i].seat.id
              && d.seats[i].price == v.seatLines[i].price
              && d.seats[i].displayName == v.seatLines[i].seat.rowLabel + "-" + IntToString(v.seatLines[i].seat.seatNo)
  {
    var r := v.booking.reservation;
    ReservationDetail(r.id, r.reservationNo, r.status, r.memberId, r.screeningId, v.movieTitle, v.screenName,
                      v.startTime, r.totalSeats, r.totalAmount, Map(v.seatLines, ToSeatItem), v.booking.createdAt)
  }

  /** `findById`: the reservation with this id. */
  function FindView(rows: seq<ReservationView>, id: nat): (r: Option<ReservationView>)
    ensures r.Some? <==> exists i :: 0 <= i < |rows| && rows[i].booking.reservation.id == id
    ensures r.Some? ==> r.value in rows && r.value.booking.reservation.id == id
  {
    if rows == [] then None
    else if rows[0].booking.reservation.id == id then Some(rows[0])
    else
      var r := FindView(rows[1..], id);
      assert forall i :: 1 <= i < |rows| ==> rows[i] == rows[1..][i - 1];
      r
  }

  /** `getReservationDetail`: RESERVATION_NOT_FOUND for an unknown id, else the detail of that reservation. */
  function GetReservationDetail(rows: seq<ReservationView>, id: nat): (r: Result<ReservationDetail>)
    ensures r.Err? <==> forall v :: v in rows ==> v.booking.reservation.id != id
    ensures r.Err? ==> r.error == RESERVATION_NOT_FOUND
    ensures r.Ok? ==> exists v :: v in rows && v.booking.reservation.id == id && r.value == ToDetail(v)
  {
    match FindView(rows, id)
    case None => Err(RESERVATION_NOT_FOUND)
    case Some(v) => Ok(ToDetail(v))
  }
}
