/**
 * Rows as the read-side services see them after their joins: a screening with its movie,
 * a reservation with its creation time and movie, a payment with its creation time and
 * member; and the "first screening per movie" pass that both the home page and the
 * top-movies statistic make over a screening list.
 */
module JoinedRows {
  import opened Common
  import opened Reservations
  import opened Payments

  /** The movie columns the read services return. */
  datatype MovieInfo = MovieInfo(id: nat, title: string, posterUrl: string)

  /** A screening row joined with its movie. */
  datatype ScreeningRow = ScreeningRow(screeningId: nat, startTime: int, movie: MovieInfo)

  /** A reservation row with its `createdAt` audit time and the movie of its screening. */
  datatype BookingRow = BookingRow(reservation: ReservationRecord, createdAt: int, movieId: nat)

  /** A payment row with its `createdAt` audit time and the member of its reservation. */
  datatype PaymentRow = PaymentRow(payment: PaymentRecord, createdAt: int, memberId: nat)

  /** `PageImpl(content, pageable, total)`: the content and the total it reports. */
  datatype ListPage<T> = ListPage(content: seq<T>, total: nat)

  /** A derived `...Between(start, end)` query condition: both bounds inclusive. */
  predicate Between(t: int, start: int, end: int)
  {
    start <= t <= end
  }

  /** `endDate.atTime(23, 59, 59)`: the last whole second of day `d`. */
  function EndOfDayAsWritten(d: int): int
  {
    StartOfDay(d) + MillisPerDay - MillisPerSecond
  }

  /**
   * The admin listings' creation-time filter as written: from the start of `startDate` to
   * 23:59:59 of `endDate`, both ends inclusive; an absent date leaves that side open.
   */
  predicate InDateRangeAsWritten(t: int, startDate: Option<int>, endDate: Option<int>)
  {
    && (startDate.None? || t >= StartOfDay(startDate.value))
    && (endDate.None? || t <= EndOfDayAsWritten(endDate.value))
  }

  /** The same filter with the end bound the day after `endDate` begins, exclusive. */
  predicate InDateRange(t: int, startDate: Option<int>, endDate: Option<int>)
  {
    && (startDate.None? || t >= StartOfDay(startDate.value))
    && (endDate.None? || t < StartOfDay(endDate.value + 1))
  }

  /** The corrected filter keeps exactly the instants whose day lies between the two dates. */
  lemma InDateRangeMeansDays(t: int, startDate: Option<int>, endDate: Option<int>)
    ensures InDateRange(t, startDate, endDate)
            <==> (startDate.None? || startDate.value <= DayOf(t)) && (endDate.None? || DayOf(t) <= endDate.value)
  {
    var d := DayOf(t);
    if startDate.Some? && startDate.value <= d {
      assert StartOfDay(startDate.value) <= StartOfDay(d);
    }
    if endDate.Some? && d <= endDate.value {
      assert StartOfDay(d + 1) <= StartOfDay(endDate.value + 1);
    }
  }

  /** Half a second before midnight is still on `endDate`, yet the filter as written drops it. */
  lemma LastSecondDropped(endDate: int)
    ensures var t := StartOfDay(endDate) + MillisPerDay - 500;
      DayOf(t) == endDate && !InDateRangeAsWritten(t, None, Some(endDate)) && InDateRange(t, None, Some(endDate))
  {
    DayOfWindow(StartOfDay(endDate) + MillisPerDay - 500, endDate);
  }

  /** The two filters disagree only on the final, fractional second of `endDate`. */
  lemma DateRangesDifferInLastSecond(t: int, startDate: Option<int>, endDate: Option<int>)
    ensures InDateRangeAsWritten(t, startDate, endDate) ==> InDateRange(t, startDate, endDate)
    ensures InDateRange(t, startDate, endDate) && !InDateRangeAsWritten(t, startDate, endDate)
            ==> endDate.Some? && DayOf(t) == endDate.value && t > EndOfDayAsWritten(endDate.value)
  {
    if endDate.Some? {
      DayOfWindow(t, endDate.value);
    }
  }

  /** The index of the first row showing movie `id`, or |rows| when there is none. */
  function FirstIndex(rows: seq<ScreeningRow>, id: nat): (k: nat)
    ensures k <= |rows|
    ensures k < |rows| ==> rows[k].movie.id == id
    ensures forall j :: 0 <= j < k ==> rows[j].movie.id != id
  {
    if rows == [] then 0
    else if rows[0].movie.id == id then 0
    else 1 + FirstIndex(rows[1..], id)
  }

  /** Some movie in `ms` has this id. */
  predicate HasMovie(ms: seq<MovieInfo>, id: nat)
  {
    exists i :: 0 <= i < |ms| && ms[i].id == id
  }

  /** Appending a movie adds exactly its id. */
  lemma HasMovieAppend(ms: seq<MovieInfo>, m: MovieInfo)
    ensures forall id :: HasMovie(ms + [m], id) <==> HasMovie(ms, id) || id == m.id
  {
    forall id | HasMovie(ms + [m], id) && id != m.id ensures HasMovie(ms, id) {
      var i :| 0 <= i < |ms + [m]| && (ms + [m])[i].id == id;
      assert i < |ms| && ms[i].id == id;
    }
    assert (ms + [m])[|ms|] == m;
    assert forall i :: 0 <= i < |ms| ==> (ms + [m])[i] == ms[i];
  }

  /** The movie of each screening whose movie id was not seen before, in the order they
    * appear: the values of a map filled with `putIfAbsent(movieId, movie)` in list order. */
  function FirstMovies(rows: seq<ScreeningRow>): seq<MovieInfo>
  {
    if rows == [] then []
    else
      var r := FirstMovies(rows[..|rows| - 1]);
      var m := rows[|rows| - 1].movie;
      if HasMovie(r, m.id) then r else r + [m]
  }

  /** No two movies share an id. */
  predicate MovieIdsDistinct(ms: seq<MovieInfo>)
  {
    forall i, j :: 0 <= i < j < |ms| ==> ms[i].id != ms[j].id
  }

  /** Each of `ms` is the movie of its id's first row, and `ms` follows the order of those rows. */
  predicate FirstOfEach(rows: seq<ScreeningRow>, ms: seq<MovieInfo>)
  {
    && (forall i :: 0 <= i < |ms| ==> FirstIndex(rows, ms[i].id) < |rows| && rows[FirstIndex(rows, ms[i].id)].movie == ms[i])
    && (forall i, j :: 0 <= i < j < |ms| ==> FirstIndex(rows, ms[i].id) < FirstIndex(rows, ms[j].id))
  }

  /** Appending a row moves no first occurrence of a movie already shown. */
  lemma FirstIndexExtend(rows: seq<ScreeningRow>, x: ScreeningRow, id: nat)
    ensures FirstIndex(rows + [x], id)
            == if FirstIndex(rows, id) < |rows| then FirstIndex(rows, id)
               else if x.movie.id == id then |rows| else |rows| + 1
  {
    var k, k0 := FirstIndex(rows + [x], id), FirstIndex(rows, id);
    var s := rows + [x];
    assert forall j :: 0 <= j < |rows| ==> s[j] == rows[j];
    if k0 < |rows| {
      assert s[k0].movie.id == id;
    } else if x.movie.id == id {
      assert s[|rows|].movie.id == id;
    }
  }

  /** The pass keeps one movie per distinct id. */
  lemma {:induction false} FirstMoviesDistinct(rows: seq<ScreeningRow>)
    ensures MovieIdsDistinct(FirstMovies(rows))
    decreases |rows|
  {
    if rows != [] {
      var p, m := rows[..|rows| - 1], rows[|rows| - 1].movie;
      FirstMoviesDistinct(p);
      var r0 := FirstMovies(p);
      if !HasMovie(r0, m.id) {
        assert forall i :: 0 <= i < |r0| ==> r0[i].id != m.id;
        assert FirstMovies(rows) == r0 + [m];
      }
    }
  }

  /** Every movie of the list is kept. */
  lemma {:induction false} FirstMoviesComplete(rows: seq<ScreeningRow>)
    ensures forall k :: 0 <= k < |rows| ==> HasMovie(FirstMovies(rows), rows[k].movie.id)
    decreases |rows|
  {
    if rows != [] {
      var p, x := rows[..|rows| - 1], rows[|rows| - 1];
      FirstMoviesComplete(p);
      var r0, r := FirstMovies(p), FirstMovies(rows);
      assert forall i :: 0 <= i < |r0| ==> r[i] == r0[i];
      forall k | 0 <= k < |rows| ensures HasMovie(r, rows[k].movie.id) {
        if k < |p| {
          assert rows[k] == p[k];
          var i :| 0 <= i < |r0| && r0[i].id == p[k].movie.id;
          assert r[i].id == rows[k].movie.id;
        } else if !HasMovie(r0, x.movie.id) {
          assert r[|r0|] == x.movie;
        }
      }
    }
  }

  /** Each kept movie is the movie of its id's first screening, and the kept movies follow the
    * order of those first screenings. */
  lemma {:induction false} FirstMoviesInFirstOrder(rows: seq<ScreeningRow>)
    ensures FirstOfEach(rows, FirstMovies(rows))
    decreases |rows|
  {
    if rows != [] {
      var p, x := rows[..|rows| - 1], rows[|rows| - 1];
      assert rows == p + [x];
      FirstMoviesInFirstOrder(p);
      var r0 := FirstMovies(p);
      FirstOfEachExtend(p, x, r0);
      if !HasMovie(r0, x.movie.id) {
        FirstMoviesComplete(p);
        FirstOfEachExtendNew(p, x, r0);
      }
    }
  }

  /** A row appended after the first rows of `ms` keeps them first. */
  lemma FirstOfEachExtend(p: seq<ScreeningRow>, x: ScreeningRow, ms: seq<MovieInfo>)
    requires FirstOfEach(p, ms)
    ensures FirstOfEach(p + [x], ms)
  {
    forall i | 0 <= i < |ms|
      ensures FirstIndex(p + [x], ms[i].id) == FirstIndex(p, ms[i].id)
      ensures (p + [x])[FirstIndex(p, ms[i].id)] == p[FirstIndex(p, ms[i].id)]
    {
      FirstIndexExtend(p, x, ms[i].id);
    }
  }

  /** An appended row with a movie not seen before is that movie's first row, and comes last. */
  lemma FirstOfEachExtendNew(p: seq<ScreeningRow>, x: ScreeningRow, ms: seq<MovieInfo>)
    requires FirstOfEach(p, ms) && FirstIndex(p, x.movie.id) == |p|
    ensures FirstOfEach(p + [x], ms + [x.movie])
  {
    var rows, ms' := p + [x], ms + [x.movie];
    FirstOfEachExtend(p, x, ms);
    FirstIndexExtend(p, x, x.movie.id);
    assert FirstIndex(rows, x.movie.id) == |p| && rows[|p|] == x;
    forall i | 0 <= i < |ms'|
      ensures FirstIndex(rows, ms'[i].id) < |rows| && rows[FirstIndex(rows, ms'[i].id)].movie == ms'[i]
    {
      if i < |ms| {
        assert ms'[i] == ms[i];
      }
    }
    forall i, j | 0 <= i < j < |ms'|
      ensures FirstIndex(rows, ms'[i].id) < FirstIndex(rows, ms'[j].id)
    {
      assert ms'[i] == ms[i];
      if j < |ms| {
        assert ms'[j] == ms[j];
      } else {
        assert FirstIndex(rows, ms[i].id) < |p|;
      }
    }
  }
}
