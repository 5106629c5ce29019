/**
 * The administrator's payment pages (domain/admin/service/AdminPaymentService.java): a
 * filtered listing of one fetched page, the cancelled-payments listing built on it, and the
 * detail of one payment.
 */
module AdminPayments {
  import opened Common
  import opened Seqs
  import opened Payments
  import opened JoinedRows

  /** A payment as the listing reads it through its reservation, member and screening. */
  datatype PaymentView = PaymentView(
    row: PaymentRow,
    reservationNo: string,
    memberLoginId: string,
    movieTitle: string)

  /** `PaymentListResponse`. */
  datatype PaymentListItem = PaymentListItem(
    paymentId: nat,
    paymentNo: string,
    payStatus: PaymentStatus,
    payMethod: PaymentMethod,
    payAmount: int,
    reservationId: nat,
    reservationNo: string,
    memberId: nat,
    memberLoginId: string,
    movieTitle: string,
    paidAt: Option<int>,
    cancelledAt: Option<int>,
    createdAt: int)

  /** The optional filters of `getPayments`; dates are day numbers. */
  datatype PaymentFilter = PaymentFilter(
    startDate: Option<int>,
    endDate: Option<int>,
    payStatus: Option<PaymentStatus>,
    memberId: Option<nat>)

  /** The four stream filters, the date one with its end bound corrected (see `InDateRange`);
    * the member is the one of the payment's reservation. */
  predicate MatchesFilter(f: PaymentFilter, v: PaymentView)
  {
    && InDateRange(v.row.createdAt, f.startDate, f.endDate)
    && (f.payStatus.None? || v.row.payment.payStatus == f.payStatus.value)
    && (f.memberId.None? || v.row.memberId == f.memberId.value)
  }

  function Matching(f: PaymentFilter): PaymentView -> bool
  {
    (v: PaymentView) => MatchesFilter(f, v)
  }

  /** `toListResponse`. */
  function ToListItem(v: PaymentView): PaymentListItem
  {
    var p := v.row.payment;
    PaymentListItem(p.id, p.paymentNo, p.payStatus, p.payMethod, p.payAmount, p.reservationId, v.reservationNo,
                    v.row.memberId, v.memberLoginId, v.movieTitle, p.paidAt, p.cancelledAt, v.row.createdAt)
  }

  /** `getPayments`: `page` is the content `findAll(pageable)` fetched. */
  function GetPayments(page: seq<PaymentView>, f: PaymentFilter): (r: ListPage<PaymentListItem>)
    ensures r.total == |r.content| <= |page|
  {
    var filtered := Filter(page, Matching(f));
    ListPage(Map(filtered, ToListItem), |filtered|)
  }

  /**
   * The listing keeps, in page order, the item of every fetched payment created on a day between
   * the two dates, with the given status and made for a reservation of the given member, and of
   * no other.
   */
  lemma GetPaymentsSpec(page: seq<PaymentView>, f: PaymentFilter)
    ensures var r := GetPayments(page, f);
      && r.total == |r.content|
      && (exists kept :: SubsequenceOf(kept, page) && r.content == Map(kept, ToListItem))
      && (forall v :: v in page ==>
            (MatchesFilter(f, v) ==> ToListItem(v) in r.content))
      && (forall i :: 0 <= i < |r.content| ==> exists v :: v in page && MatchesFilter(f, v) && r.content[i] == ToListItem(v))
      && (forall v :: v in page ==>
            (MatchesFilter(f, v) <==>
               && (f.startDate.None? || f.startDate.value <= DayOf(v.row.createdAt))
               && (f.endDate.None? || DayOf(v.row.createdAt) <= f.endDate.value)
               && (f.payStatus.None? || v.row.payment.payStatus == f.payStatus.value)
               && (f.memberId.None? || v.row.memberId == f.memberId.value)))
  {
    var filtered := Filter(page, Matching(f));
    var r := GetPayments(page, f);
    FilterIsSubsequence(page, Matching(f));
    forall v | v in page && MatchesFilter(f, v) ensures ToListItem(v) in r.content {
      var i :| 0 <= i < |filtered| && filtered[i] == v;
      assert r.content[i] == ToListItem(v);
    }
    forall i | 0 <= i < |r.content| ensures exists v :: v in page && MatchesFilter(f, v) && r.content[i] == ToListItem(v) {
      assert filtered[i] in filtered;
    }
    forall v | v in page {
      InDateRangeMeansDays(v.row.createdAt, f.startDate, f.endDate);
    }
  }

  /** With every filter absent, the whole page is listed. */
  lemma NoFilterListsPage(page: seq<PaymentView>)
    ensures GetPayments(page, PaymentFilter(None, None, None, None)).content == Map(page, ToListItem)
  {
    FilterKeepsAll(page, Matching(PaymentFilter(None, None, None, None)));
  }

  function IsCancelled(item: PaymentListItem): bool
  {
    item.payStatus == CANCELLED
  }

  /** `getCancelledPayments`: the listing with status CANCELLED and no member filter. */
  function GetCancelledPayments(page: seq<PaymentView>, startDate: Option<int>, endDate: Option<int>)
    : ListPage<PaymentListItem>
  {
    GetPayments(page, PaymentFilter(startDate, endDate, Some(CANCELLED), None))
  }

  /** The cancelled listing is the unfiltered-by-status listing with its non-cancelled items removed. */
  lemma CancelledIsStatusFiltered(page: seq<PaymentView>, startDate: Option<int>, endDate: Option<int>)
    ensures var r := GetCancelledPayments(page, startDate, endDate);
      && (forall i :: 0 <= i < |r.content| ==> r.content[i].payStatus == CANCELLED)
      && r.content == Filter(GetPayments(page, PaymentFilter(startDate, endDate, None, None)).content, IsCancelled)
  {
    var any := PaymentFilter(startDate, endDate, None, None);
    var cancelled := PaymentFilter(startDate, endDate, Some(CANCELLED), None);
    var isCancelledView := (v: PaymentView) => IsCancelled(ToListItem(v));
    FilterMap(Filter(page, Matching(any)), ToListItem, IsCancelled, isCancelledView);
    FilterFilter(page, Matching(any), isCancelledView, Matching(cancelled));
  }

  /** `findById`: the payment with this id. */
  function FindView(rows: seq<PaymentView>, id: nat): (r: Option<PaymentView>)
    ensures r.Some? <==> exists i :: 0 <= i < |rows| && rows[i].row.payment.id == id
    ensures r.Some? ==> r.value in rows && r.value.row.payment.id == id
  {
    if rows == [] then None
    else if rows[0].row.payment.id == id then Some(rows[0])
    else
      var r := FindView(rows[1..], id);
      assert forall i :: 1 <= i < |rows| ==> rows[i] == rows[1..][i - 1];
      r
  }

  /** `getPaymentDetail`: PAYMENT_NOT_FOUND for an unknown id, else that payment's list item. */
  function GetPaymentDetail(rows: seq<PaymentView>, id: nat): (r: Result<PaymentListItem>)
    ensures r.Err? <==> forall v :: v in rows ==> v.row.payment.id != id
    ensures r.Err? ==> r.error == PAYMENT_NOT_FOUND
    ensures r.Ok? ==> r.value.paymentId == id && exists v :: v in rows && v.row.payment.id == id && r.value == ToListItem(v)
  {
    match FindView(rows, id)
    case None => Err(PAYMENT_NOT_FOUND)
    case Some(v) => Ok(ToListItem(v))
  }
}
