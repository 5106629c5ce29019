/**
 * The seat-layout response (domain/screening/dto/SeatStatusItem.java and
 * SeatLayoutResponse.java): what the layout cache stores and what the seat map shows.
 */
module SeatLayouts {
  import opened Common
  import opened SeatStatuses

  /**
   * One seat of the layout. `holdToken` and `isHeldByCurrentUser` are only
   * filled in for a signed-in caller; the shared, cached copy leaves them null.
   */
  datatype SeatStatusItem = SeatStatusItem(
    seatId: nat,
    status: SeatStatus,
    rowLabel: string,
    seatNo: int,
    holdExpireAt: Option<int>,
    holdToken: Option<string>,
    isHeldByCurrentUser: Option<bool>)

  datatype SeatLayout = SeatLayout(screeningId: nat, seats: seq<SeatStatusItem>)

  /** Two items agree on everything the shared layout carries. */
  predicate SamePublicFields(a: SeatStatusItem, b: SeatStatusItem)
  {
    a.seatId == b.seatId && a.status == b.status && a.rowLabel == b.rowLabel
    && a.seatNo == b.seatNo && a.holdExpireAt == b.holdExpireAt
  }
}
