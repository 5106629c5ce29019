/**
 * The statistics dashboard (domain/admin/service/AdminStatsService.java): today's sales and
 * bookings, the per-day trend, and today's movies ranked by bookings. The repositories'
 * derived `...Between` queries are filters of the payment and reservation tables.
 */
module AdminStats {
  import opened Common
  import opened Seqs
  import opened Grouping
  import opened Payments
  import opened Reservations
  import opened JoinedRows

  /** The condition of `findByPayStatusAndPaidAtBetween(SUCCESS, start, end)`. */
  function PaidIn(start: int, end: int): PaymentRecord -> bool
  {
    (p: PaymentRecord) => p.payStatus == SUCCESS && p.paidAt.Some? && Between(p.paidAt.value, start, end)
  }

  /** The condition of `findByStatusAndCreatedAtBetween(CONFIRMED, start, end)`. */
  function ConfirmedIn(start: int, end: int): BookingRow -> bool
  {
    (b: BookingRow) => b.reservation.status == CONFIRMED && Between(b.createdAt, start, end)
  }

  function Amount(p: PaymentRecord): int
  {
    p.payAmount
  }

  /** `mapToLong(Payment::getPayAmount).sum()`. */
  function TotalAmount(ps: seq<PaymentRecord>): int
  {
    if ps == [] then 0 else ps[0].payAmount + TotalAmount(ps[1..])
  }

  lemma {:induction false} TotalAmountOfFilter(ps: seq<PaymentRecord>, p: PaymentRecord -> bool)
    ensures TotalAmount(Filter(ps, p)) == SumOf(ps, p, Amount)
    decreases |ps|
  {
    if ps != [] {
      TotalAmountOfFilter(ps[1..], p);
      if p(ps[0]) {
        assert Filter(ps, p) == [ps[0]] + Filter(ps[1..], p);
      }
    }
  }

  /** `StatsKpiResponse` without the occupancy percentage. */
  datatype Kpi = Kpi(todaySales: int, todayBookings: nat, noShowAmount: int)

  /** `getKpi`; `today` is the day number of `LocalDate.now()`. */
  function GetKpi(payments: seq<PaymentRecord>, bookings: seq<BookingRow>, today: int): (k: Kpi)
    ensures k.todaySales == SumOf(payments, PaidIn(StartOfDay(today), StartOfDay(today) + MillisPerDay), Amount)
    ensures k.todayBookings == Count(bookings, ConfirmedIn(StartOfDay(today), StartOfDay(today) + MillisPerDay))
    ensures k.noShowAmount == 0
  {
    var start, end := StartOfDay(today), StartOfDay(today) + MillisPerDay;
    var paid := Filter(payments, PaidIn(start, end));
    var confirmed := Filter(bookings, ConfirmedIn(start, end));
    TotalAmountOfFilter(payments, PaidIn(start, end));
    CountIsFilterLength(bookings, ConfirmedIn(start, end));
    Kpi(TotalAmount(paid), |confirmed|, 0)
  }

  // ---------------------------------------------------------------- daily trend

  /** `StatsDailyItem`. */
  datatype DailyItem = DailyItem(date: int, sales: int, bookings: int)

  /** A successful payment made on day `date`, no later than `now`. */
  function PaidOnDay(date: int, now: int): PaymentRecord -> bool
  {
    (p: PaymentRecord) => p.payStatus == SUCCESS && p.paidAt.Some? && DayOf(p.paidAt.value) == date && p.paidAt.value <= now
  }

  /** A confirmed reservation created on day `date`, no later than `now`. */
  function ConfirmedOnDay(date: int, now: int): BookingRow -> bool
  {
    (b: BookingRow) => b.reservation.status == CONFIRMED && DayOf(b.createdAt) == date && b.createdAt <= now
  }

  /** The day of `paidAt`; the trend drops payments without one before grouping. */
  function SaleDay(p: PaymentRecord): int
  {
    if p.paidAt.Some? then DayOf(p.paidAt.value) else 0
  }

  function HasPaidAt(p: PaymentRecord): bool
  {
    p.paidAt.Some?
  }

  function SalePair(p: PaymentRecord): (int, int)
  {
    (SaleDay(p), p.payAmount)
  }

  function BookingDay(b: BookingRow): int
  {
    DayOf(b.createdAt)
  }

  function One(b: BookingRow): int
  {
    1
  }

  function AnyBooking(b: BookingRow): bool
  {
    true
  }

  function BookingPair(b: BookingRow): (int, int)
  {
    (BookingDay(b), 1)
  }

  /** The first instant the trend fetches: midnight of the day `days` days before `now`. */
  function TrendStart(now: int, days: int): int
  {
    StartOfDay(DayOf(now - days * MillisPerDay))
  }

  lemma DayOfShift(t: int, n: int)
    ensures DayOf(t - n * MillisPerDay) == DayOf(t) - n
  {
    var e := DayOf(t) - n;
    assert StartOfDay(e) == StartOfDay(DayOf(t)) - n * MillisPerDay;
    DayOfWindow(t - n * MillisPerDay, e);
  }

  /** Within the trend window, "fetched and paid on `date`" is "paid on `date` by `now`". */
  lemma PaidWindowOnDay(p: PaymentRecord, now: int, days: int, date: int)
    requires DayOf(now) - days < date
    ensures (PaidIn(TrendStart(now, days), now)(p) && HasPaidAt(p) && SaleDay(p) == date) == PaidOnDay(date, now)(p)
  {
    DayOfShift(now, days);
    if p.paidAt.Some? && DayOf(p.paidAt.value) == date {
      DayOfWindow(p.paidAt.value, date);
      assert StartOfDay(DayOf(now) - days) + MillisPerDay <= StartOfDay(date);
    }
  }

  /** The same for reservations. */
  lemma ConfirmedWindowOnDay(b: BookingRow, now: int, days: int, date: int)
    requires DayOf(now) - days < date
    ensures (ConfirmedIn(TrendStart(now, days), now)(b) && AnyBooking(b) && BookingDay(b) == date) == ConfirmedOnDay(date, now)(b)
  {
    DayOfShift(now, days);
    if DayOf(b.createdAt) == date {
      DayOfWindow(b.createdAt, date);
      assert StartOfDay(DayOf(now) - days) + MillisPerDay <= StartOfDay(date);
    }
  }

  /** The grouped sales of one trend day are the amounts of that day's successful payments. */
  lemma SalesOnDay(payments: seq<PaymentRecord>, now: int, days: int, date: int)
    requires DayOf(now) - days < date
    ensures SumFor(Map(Filter(Filter(payments, PaidIn(TrendStart(now, days), now)), HasPaidAt), SalePair), date)
            == SumOf(payments, PaidOnDay(date, now), Amount)
  {
    var fetched := Filter(payments, PaidIn(TrendStart(now, days), now));
    var q := (p: PaymentRecord) => HasPaidAt(p) && SaleDay(p) == date;
    SumForPairs(fetched, HasPaidAt, SaleDay, Amount, SalePair, date, q);
    forall p | p in payments
      ensures PaidOnDay(date, now)(p) == (PaidIn(TrendStart(now, days), now)(p) && q(p))
    {
      PaidWindowOnDay(p, now, days, date);
    }
    SumOfFilter(payments, PaidIn(TrendStart(now, days), now), q, PaidOnDay(date, now), Amount);
  }

  /** The grouped bookings of one trend day count that day's confirmed reservations. */
  lemma BookingsOnDay(bookings: seq<BookingRow>, now: int, days: int, date: int)
    requires DayOf(now) - days < date
    ensures SumFor(Map(Filter(bookings, ConfirmedIn(TrendStart(now, days), now)), BookingPair), date)
            == Count(bookings, ConfirmedOnDay(date, now))
  {
    var fetched := Filter(bookings, ConfirmedIn(TrendStart(now, days), now));
    var q := (b: BookingRow) => AnyBooking(b) && BookingDay(b) == date;
    FilterKeepsAll(fetched, AnyBooking);
    SumForPairs(fetched, AnyBooking, BookingDay, One, BookingPair, date, q);
    forall b | b in bookings
      ensures ConfirmedOnDay(date, now)(b) == (ConfirmedIn(TrendStart(now, days), now)(b) && q(b))
    {
      ConfirmedWindowOnDay(b, now, days, date);
    }
    SumOfFilter(bookings, ConfirmedIn(TrendStart(now, days), now), q, ConfirmedOnDay(date, now), One);
    SumOfOnesIsCount(bookings, ConfirmedOnDay(date, now), One);
  }

  /** `item` reports day `item.date`'s successful payment total and confirmed reservation count. */
  predicate ReportsDay(item: DailyItem, payments: seq<PaymentRecord>, bookings: seq<BookingRow>, now: int)
  {
    && item.sales == SumOf(payments, PaidOnDay(item.date, now), Amount)
    && item.bookings == Count(bookings, ConfirmedOnDay(item.date, now))
  }

  /** The sales map `getDailyTrend` groups from its fetched payments. */
  function SalesByDate(payments: seq<PaymentRecord>, now: int, days: int): map<int, int>
  {
    GroupSum(Map(Filter(Filter(payments, PaidIn(TrendStart(now, days), now)), HasPaidAt), SalePair))
  }

  /** The booking-count map `getDailyTrend` groups from its fetched reservations. */
  function BookingsByDate(bookings: seq<BookingRow>, now: int, days: int): map<int, int>
  {
    GroupSum(Map(Filter(bookings, ConfirmedIn(TrendStart(now, days), now)), BookingPair))
  }

  /** Looking a trend day up in the two maps, with 0 for a day without entries, reports that day. */
  lemma TrendItemReportsDay(payments: seq<PaymentRecord>, bookings: seq<BookingRow>, now: int, days: int, date: int)
    requires DayOf(now) - days < date
    ensures ReportsDay(DailyItem(date, GetOrDefault(SalesByDate(payments, now, days), date, 0),
                                 GetOrDefault(BookingsByDate(bookings, now, days), date, 0)), payments, bookings, now)
  {
    GroupSumGet(Map(Filter(Filter(payments, PaidIn(TrendStart(now, days), now)), HasPaidAt), SalePair), date);
    GroupSumGet(Map(Filter(bookings, ConfirmedIn(TrendStart(now, days), now)), BookingPair), date);
    SalesOnDay(payments, now, days, date);
    BookingsOnDay(bookings, now, days, date);
  }

  /**
   * `getDailyTrend(days)`: one item per day, oldest first, ending today, each with that
   * day's successful payment total and confirmed reservation count.
   */
  method GetDailyTrend(days: int, now: int, payments: seq<PaymentRecord>, bookings: seq<BookingRow>)
    returns (result: seq<DailyItem>)
    ensures 1 <= days <= 365 ==> |result| == days
    ensures !(1 <= days <= 365) ==> |result| == 30
    ensures forall i :: 0 <= i < |result| ==> result[i].date == DayOf(now) - (|result| - 1 - i)
    ensures forall i :: 0 <= i < |result| ==> ReportsDay(result[i], payments, bookings, now)
  {
    var d := days;
    if d < 1 || d > 365 {
      d := 30;
    }
    var end := now;
    var salesByDate := SalesByDate(payments, end, d);
    var bookingsByDate := BookingsByDate(bookings, end, d);
    result := [];
    var i := 0;
    while i < d
      invariant 0 <= i <= d && |result| == i
      invariant forall j :: 0 <= j < i ==> result[j].date == DayOf(now) - (d - 1 - j)
      invariant forall j :: 0 <= j < i ==> ReportsDay(result[j], payments, bookings, now)
    {
      var date := DayOf(end) - (d - 1 - i);
      var sales := GetOrDefault(salesByDate, date, 0);
      var count := GetOrDefault(bookingsByDate, date, 0);
      TrendItemReportsDay(payments, bookings, now, d, date);
      result := result + [DailyItem(date, sales, count)];
      i := i + 1;
    }
  }

  // ---------------------------------------------------------------- top movies

  /** `StatsTopMovieItem`. */
  datatype TopMovieItem = TopMovieItem(movieId: nat, title: string, bookingCount: int)

  /** The `limit` actually used: 5 when the request is outside [1, 20]. */
  function TopLimit(limit: int): (n: int)
    ensures 1 <= n <= 20
  {
    if limit < 1 || limit > 20 then 5 else limit
  }

  /** Counts never increase along the list. */
  predicate NonIncreasing(s: seq<TopMovieItem>)
  {
    forall i, j :: 0 <= i < j < |s| ==> s[i].bookingCount >= s[j].bookingCount
  }

  /** No movie is listed twice. */
  predicate ItemIdsDistinct(s: seq<TopMovieItem>)
  {
    forall i, j :: 0 <= i < j < |s| ==> s[i].movieId != s[j].movieId
  }

  /** One step of a stable sort by descending count: `x` goes before the first item whose count
    * does not exceed its own. */
  function InsertByCount(x: TopMovieItem, s: seq<TopMovieItem>): (r: seq<TopMovieItem>)
    ensures |r| == |s| + 1
    ensures forall y :: y in r <==> y == x || y in s
  {
    if s == [] then [x]
    else if s[0].bookingCount <= x.bookingCount then [x] + s
    else [s[0]] + InsertByCount(x, s[1..])
  }

  /** `sorted(comparingLong(getBookingCount).reversed())`: a stable insertion sort. */
  function SortByCountDesc(s: seq<TopMovieItem>): (r: seq<TopMovieItem>)
    ensures |r| == |s|
    ensures forall y :: y in r <==> y in s
  {
    if s == [] then [] else InsertByCount(s[0], SortByCountDesc(s[1..]))
  }

  lemma {:induction false} InsertByCountSorted(x: TopMovieItem, s: seq<TopMovieItem>)
    requires NonIncreasing(s)
    ensures NonIncreasing(InsertByCount(x, s))
    decreases |s|
  {
    if s != [] && s[0].bookingCount > x.bookingCount {
      var t := InsertByCount(x, s[1..]);
      InsertByCountSorted(x, s[1..]);
      forall j | 0 <= j < |t| ensures s[0].bookingCount >= t[j].bookingCount {
        assert t[j] in t;
        if t[j] != x {
          var k :| 0 <= k < |s[1..]| && s[1..][k] == t[j];
          assert s[k + 1] == t[j];
        }
      }
      NonIncreasingCons(s[0], t);
    }
  }

  /** A head at least as large as every later count keeps the order. */
  lemma NonIncreasingCons(h: TopMovieItem, t: seq<TopMovieItem>)
    requires NonIncreasing(t)
    requires forall j :: 0 <= j < |t| ==> h.bookingCount >= t[j].bookingCount
    ensures NonIncreasing([h] + t)
  {
    var r := [h] + t;
    forall i, j | 0 <= i < j < |r| ensures r[i].bookingCount >= r[j].bookingCount {
      assert r[j] == t[j - 1];
      if i > 0 { assert r[i] == t[i - 1]; }
    }
  }

  lemma {:induction false} InsertByCountDistinct(x: TopMovieItem, s: seq<TopMovieItem>)
    requires ItemIdsDistinct(s)
    requires forall y :: y in s ==> y.movieId != x.movieId
    ensures ItemIdsDistinct(InsertByCount(x, s))
    decreases |s|
  {
    if s != [] && s[0].bookingCount > x.bookingCount {
      InsertByCountDistinct(x, s[1..]);
      var r := InsertByCount(x, s);
      assert r == [s[0]] + InsertByCount(x, s[1..]);
      forall j | 1 <= j < |r| ensures r[0].movieId != r[j].movieId {
        assert r[j] in InsertByCount(x, s[1..]);
      }
    }
  }

  /** The sort orders by count and keeps a list without repeated movies so. */
  lemma {:induction false} SortByCountDescSpec(s: seq<TopMovieItem>)
    ensures NonIncreasing(SortByCountDesc(s))
    ensures ItemIdsDistinct(s) ==> ItemIdsDistinct(SortByCountDesc(s))
    decreases |s|
  {
    if s != [] {
      SortByCountDescSpec(s[1..]);
      InsertByCountSorted(s[0], SortByCountDesc(s[1..]));
      if ItemIdsDistinct(s) {
        forall y | y in SortByCountDesc(s[1..]) ensures y.movieId != s[0].movieId {
          var j :| 0 <= j < |s[1..]| && s[1..][j] == y;
          assert s[j + 1] == y;
        }
        InsertByCountDistinct(s[0], SortByCountDesc(s[1..]));
      }
    }
  }

  /** The screening ids of today's screenings. */
  function ScreeningIds(screenings: seq<ScreeningRow>): seq<nat>
  {
    Map(screenings, (s: ScreeningRow) => s.screeningId)
  }

  /** Confirmed today and made for one of today's screenings. */
  function CountedToday(today: int, ids: seq<nat>): BookingRow -> bool
  {
    (b: BookingRow) => ConfirmedIn(StartOfDay(today), StartOfDay(today) + MillisPerDay)(b) && b.reservation.screeningId in ids
  }

  function MovieOf(b: BookingRow): nat
  {
    b.movieId
  }

  function OneFor(b: BookingRow): int
  {
    1
  }

  function MoviePair(b: BookingRow): (nat, int)
  {
    (MovieOf(b), 1)
  }

  /** The `countsByMovie` map. */
  function CountsByMovie(bookings: seq<BookingRow>, today: int, ids: seq<nat>): map<nat, int>
  {
    var start, end := StartOfDay(today), StartOfDay(today) + MillisPerDay;
    GroupSum(Map(Filter(Filter(bookings, ConfirmedIn(start, end)), (b: BookingRow) => b.reservation.screeningId in ids), MoviePair))
  }

  /** Today's confirmed reservations for today's screenings of movie `movieId`. */
  function MovieBookings(bookings: seq<BookingRow>, today: int, ids: seq<nat>, movieId: nat): nat
  {
    Count(bookings, (b: BookingRow) => CountedToday(today, ids)(b) && b.movieId == movieId)
  }

  lemma CountsByMovieGet(bookings: seq<BookingRow>, today: int, ids: seq<nat>, movieId: nat)
    ensures GetOrDefault(CountsByMovie(bookings, today, ids), movieId, 0) == MovieBookings(bookings, today, ids, movieId)
  {
    var start, end := StartOfDay(today), StartOfDay(today) + MillisPerDay;
    var forToday := (b: BookingRow) => b.reservation.screeningId in ids;
    var both := CountedToday(today, ids);
    var q := (b: BookingRow) => both(b) && MovieOf(b) == movieId;
    FilterFilter(bookings, ConfirmedIn(start, end), forToday, both);
    GroupSumGet(Map(Filter(bookings, both), MoviePair), movieId);
    SumForPairs(bookings, both, MovieOf, OneFor, MoviePair, movieId, q);
    SumOfOnesIsCount(bookings, q, OneFor);
    assert Count(bookings, q) == MovieBookings(bookings, today, ids, movieId) by {
      CountSame(bookings, q, (b: BookingRow) => CountedToday(today, ids)(b) && b.movieId == movieId);
    }
  }

  /** Counting with two predicates that agree gives the same count. */
  lemma {:induction false} CountSame(s: seq<BookingRow>, p: BookingRow -> bool, q: BookingRow -> bool)
    requires forall x :: p(x) == q(x)
    ensures Count(s, p) == Count(s, q)
    decreases |s|
  {
    if s != [] {
      CountSame(s[1..], p, q);
    }
  }

  /** The item of a movie: its id, title and today's booking count. */
  function ItemFor(counts: map<nat, int>): MovieInfo -> TopMovieItem
  {
    (m: MovieInfo) => TopMovieItem(m.id, m.title, GetOrDefault(counts, m.id, 0))
  }

  /** One item per movie shown today, with its count; `moviesById` keeps the first screening's
    * movie per id, taken here in the order of the screening list. */
  function TodayItems(todayScreenings: seq<ScreeningRow>, bookings: seq<BookingRow>, today: int): seq<TopMovieItem>
  {
    Map(FirstMovies(todayScreenings), ItemFor(CountsByMovie(bookings, today, ScreeningIds(todayScreenings))))
  }

  /** `limit(n)` on a stream. */
  function Limited(s: seq<TopMovieItem>, n: nat): (r: seq<TopMovieItem>)
  {
    if |s| <= n then s else s[..n]
  }

  /** `getTopMoviesByBookings(limit)`; `todayScreenings` is what the window query returned for
    * today. */
  function TopMoviesByBookings(limit: int, todayScreenings: seq<ScreeningRow>, bookings: seq<BookingRow>, today: int)
    : seq<TopMovieItem>
  {
    if todayScreenings == [] then []
    else Limited(SortByCountDesc(TodayItems(todayScreenings, bookings, today)), TopLimit(limit))
  }

  /** Keeping the first `n` of a list sorted by count keeps it sorted and keeps every item
    * whose count beats some item left out. */
  lemma LimitedSpec(s: seq<TopMovieItem>, n: nat)
    requires NonIncreasing(s) && ItemIdsDistinct(s)
    ensures var r := Limited(s, n);
      && |r| <= n
      && NonIncreasing(r)
      && ItemIdsDistinct(r)
      && (forall i :: 0 <= i < |r| ==> r[i] in s)
      && (forall y :: y in s ==> y in r || (|r| == n && forall i :: 0 <= i < |r| ==> r[i].bookingCount >= y.bookingCount))
  {
    var r := Limited(s, n);
    forall i | 0 <= i < |r| ensures r[i] == s[i] {
    }
    forall y | y in s && y !in r
      ensures |r| == n && forall i :: 0 <= i < |r| ==> r[i].bookingCount >= y.bookingCount
    {
      var j :| 0 <= j < |s| && s[j] == y;
    }
  }

  /** Today's items: one per movie shown today, with its title and count. */
  lemma TodayItemsSpec(todayScreenings: seq<ScreeningRow>, bookings: seq<BookingRow>, today: int)
    ensures var items := TodayItems(todayScreenings, bookings, today);
      && ItemIdsDistinct(items)
      && (forall y :: y in items ==>
            && (exists k :: 0 <= k < |todayScreenings| && y.movieId == todayScreenings[k].movie.id
                                                  && y.title == todayScreenings[k].movie.title)
            && y.bookingCount == MovieBookings(bookings, today, ScreeningIds(todayScreenings), y.movieId))
      && (forall k :: 0 <= k < |todayScreenings| ==> exists y :: y in items && y.movieId == todayScreenings[k].movie.id)
  {
    var ids := ScreeningIds(todayScreenings);
    var movies := FirstMovies(todayScreenings);
    var items := TodayItems(todayScreenings, bookings, today);
    assert ItemIdsDistinct(items) by {
      FirstMoviesDistinct(todayScreenings);
    }
    forall y | y in items
      ensures exists k :: 0 <= k < |todayScreenings| && y.movieId == todayScreenings[k].movie.id
                          && y.title == todayScreenings[k].movie.title
      ensures y.bookingCount == MovieBookings(bookings, today, ids, y.movieId)
    {
      var i :| 0 <= i < |items| && items[i] == y;
      TodayItemAt(todayScreenings, bookings, today, i);
    }
    forall k | 0 <= k < |todayScreenings| ensures exists y :: y in items && y.movieId == todayScreenings[k].movie.id {
      FirstMoviesComplete(todayScreenings);
      var m :| 0 <= m < |movies| && movies[m].id == todayScreenings[k].movie.id;
      assert items[m] in items;
    }
  }

  /** The item at `i` is the movie of the first screening showing it, with that movie's count. */
  lemma TodayItemAt(todayScreenings: seq<ScreeningRow>, bookings: seq<BookingRow>, today: int, i: nat)
    requires i < |TodayItems(todayScreenings, bookings, today)|
    ensures var y := TodayItems(todayScreenings, bookings, today)[i];
      && (exists k :: 0 <= k < |todayScreenings| && y.movieId == todayScreenings[k].movie.id
                                          && y.title == todayScreenings[k].movie.title)
      && y.bookingCount == MovieBookings(bookings, today, ScreeningIds(todayScreenings), y.movieId)
  {
    var movies := FirstMovies(todayScreenings);
    FirstMoviesInFirstOrder(todayScreenings);
    var k := FirstIndex(todayScreenings, movies[i].id);
    CountsByMovieGet(bookings, today, ScreeningIds(todayScreenings), movies[i].id);
    assert todayScreenings[k].movie == movies[i];
  }

  /** The ranking is short, ordered and lists each movie once. */
  lemma TopMoviesShape(limit: int, todayScreenings: seq<ScreeningRow>, bookings: seq<BookingRow>, today: int)
    ensures var r := TopMoviesByBookings(limit, todayScreenings, bookings, today);
      |r| <= TopLimit(limit) && NonIncreasing(r) && ItemIdsDistinct(r)
  {
    if todayScreenings != [] {
      var items := TodayItems(todayScreenings, bookings, today);
      TodayItemsSpec(todayScreenings, bookings, today);
      SortByCountDescSpec(items);
      LimitedSpec(SortByCountDesc(items), TopLimit(limit));
    }
  }

  /** Each ranked item is a movie shown today, with its count. */
  lemma TopMoviesItems(limit: int, todayScreenings: seq<ScreeningRow>, bookings: seq<BookingRow>, today: int, i: int)
    requires 0 <= i < |TopMoviesByBookings(limit, todayScreenings, bookings, today)|
    ensures var y := TopMoviesByBookings(limit, todayScreenings, bookings, today)[i];
      && (exists k :: 0 <= k < |todayScreenings| && y.movieId == todayScreenings[k].movie.id
                                            && y.title == todayScreenings[k].movie.title)
      && y.bookingCount == MovieBookings(bookings, today, ScreeningIds(todayScreenings), y.movieId)
  {
    var items := TodayItems(todayScreenings, bookings, today);
    TodayItemsSpec(todayScreenings, bookings, today);
    SortByCountDescSpec(items);
    LimitedSpec(SortByCountDesc(items), TopLimit(limit));
    assert TopMoviesByBookings(limit, todayScreenings, bookings, today)[i] in items;
  }

  /** An item of a list without repeated movies is ranked, or the ranking is full of items
    * counted at least as high. */
  lemma RankCut(items: seq<TopMovieItem>, n: nat, y: TopMovieItem)
    requires y in items && ItemIdsDistinct(items)
    ensures var r := Limited(SortByCountDesc(items), n);
      || (exists i :: 0 <= i < |r| && r[i].movieId == y.movieId)
      || (|r| == n && forall i :: 0 <= i < |r| ==> r[i].bookingCount >= y.bookingCount)
  {
    var sorted := SortByCountDesc(items);
    var r := Limited(sorted, n);
    SortByCountDescSpec(items);
    LimitedSpec(sorted, n);
    assert y in sorted;
    if y in r {
      var i :| 0 <= i < |r| && r[i] == y;
    }
  }

  /** A movie shown today is ranked, or the ranking is full of movies booked at least as often. */
  lemma TopMoviesCut(limit: int, todayScreenings: seq<ScreeningRow>, bookings: seq<BookingRow>, today: int, k: int)
    requires 0 <= k < |todayScreenings|
    ensures var r := TopMoviesByBookings(limit, todayScreenings, bookings, today);
      || (exists i :: 0 <= i < |r| && r[i].movieId == todayScreenings[k].movie.id)
      || (|r| == TopLimit(limit)
          && forall i :: 0 <= i < |r| ==>
               r[i].bookingCount >= MovieBookings(bookings, today, ScreeningIds(todayScreenings), todayScreenings[k].movie.id))
  {
    var items := TodayItems(todayScreenings, bookings, today);
    var y := TodayItemOf(todayScreenings, bookings, today, k);
    assert TopMoviesByBookings(limit, todayScreenings, bookings, today) == Limited(SortByCountDesc(items), TopLimit(limit));
    RankCut(items, TopLimit(limit), y);
  }

  /** The item of the movie of today's `k`-th screening. */
  lemma TodayItemOf(todayScreenings: seq<ScreeningRow>, bookings: seq<BookingRow>, today: int, k: int)
    returns (y: TopMovieItem)
    requires 0 <= k < |todayScreenings|
    ensures ItemIdsDistinct(TodayItems(todayScreenings, bookings, today))
    ensures y in TodayItems(todayScreenings, bookings, today)
    ensures y.movieId == todayScreenings[k].movie.id
    ensures y.bookingCount == MovieBookings(bookings, today, ScreeningIds(todayScreenings), y.movieId)
  {
    TodayItemsSpec(todayScreenings, bookings, today);
    y :| y in TodayItems(todayScreenings, bookings, today) && y.movieId == todayScreenings[k].movie.id;
  }

  /**
   * The ranking lists at most `limit` movies (5 when out of range), each once, by non-increasing
   * count; each item is a movie shown today with its count of today's confirmed bookings for
   * today's screenings; and a movie shown today is left out only when the list is full of
   * movies booked at least as often.
   */
  lemma TopMoviesSpec(limit: int, todayScreenings: seq<ScreeningRow>, bookings: seq<BookingRow>, today: int)
    ensures var r := TopMoviesByBookings(limit, todayScreenings, bookings, today);
      && (todayScreenings == [] ==> r == [])
      && |r| <= TopLimit(limit)
      && NonIncreasing(r)
      && ItemIdsDistinct(r)
      && (forall i :: 0 <= i < |r| ==> exists k :: 0 <= k < |todayScreenings| && r[i].movieId == todayScreenings[k].movie.id
                                            && r[i].title == todayScreenings[k].movie.title)
      && (forall i :: 0 <= i < |r| ==>
            r[i].bookingCount == MovieBookings(bookings, today, ScreeningIds(todayScreenings), r[i].movieId))
      && (forall k :: 0 <= k < |todayScreenings| ==>
            (exists i :: 0 <= i < |r| && r[i].movieId == todayScreenings[k].movie.id)
            || (|r| == TopLimit(limit)
                && forall i :: 0 <= i < |r| ==>
                     r[i].bookingCount >= MovieBookings(bookings, today, ScreeningIds(todayScreenings), todayScreenings[k].movie.id)))
  {
    TopMoviesShape(limit, todayScreenings, bookings, today);
    forall i | 0 <= i < |TopMoviesByBookings(limit, todayScreenings, bookings, today)| {
      TopMoviesItems(limit, todayScreenings, bookings, today, i);
    }
    forall k | 0 <= k < |todayScreenings| {
      TopMoviesCut(limit, todayScreenings, bookings, today, k);
    }
  }
}
