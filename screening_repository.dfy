/**
 * The custom screening queries (domain/screening/repository/ScreeningRepositoryImpl.java):
 * the where-clauses as predicates over screening rows and each query as a filter
 * of the table in row order.
 */
module ScreeningQueries {
  import opened Common
  import opened Seqs
  import opened Screenings

  /** The overlap test on `[aStart, aEnd)` and `[bStart, bEnd)`: each starts before the other ends. */
  predicate IntervalsOverlap(aStart: int, aEnd: int, bStart: int, bEnd: int)
  {
    aStart < bEnd && aEnd > bStart
  }

  /** Instant `t` lies in the half-open interval `[start, end)`. */
  predicate Within(t: int, start: int, end: int)
  {
    start <= t < end
  }

  /** The where-clause of `findOverlappingScreenings`. */
  predicate OverlapsRequest(s: ScreeningInfo, screenId: nat, startTime: int, endTime: int)
  {
    s.screenId == screenId && s.status != CANCELLED && IntervalsOverlap(s.startTime, s.endTime, startTime, endTime)
  }

  /** `findOverlappingScreenings(screenId, startTime, endTime)`. */
  function FindOverlapping(rows: seq<ScreeningInfo>, screenId: nat, startTime: int, endTime: int): (r: seq<ScreeningInfo>)
    ensures SubsequenceOf(r, rows)
    ensures forall s :: s in r <==> s in rows && OverlapsRequest(s, screenId, startTime, endTime)
    ensures startTime < endTime ==>
      forall s :: s in rows && s.startTime < s.endTime ==>
        (s in r <==> s.screenId == screenId && s.status != CANCELLED
                     && exists t :: Within(t, s.startTime, s.endTime) && Within(t, startTime, endTime))
  {
    var p := (s: ScreeningInfo) => OverlapsRequest(s, screenId, startTime, endTime);
    FilterIsSubsequence(rows, p);
    forall s | s in rows && s.startTime < s.endTime && startTime < endTime {
      OverlapMeansSharedInstant(s.startTime, s.endTime, startTime, endTime);
    }
    Filter(rows, p)
  }

  /** Two non-empty half-open intervals overlap exactly when some instant lies in both. */
  lemma OverlapMeansSharedInstant(aStart: int, aEnd: int, bStart: int, bEnd: int)
    requires aStart < aEnd && bStart < bEnd
    ensures IntervalsOverlap(aStart, aEnd, bStart, bEnd) <==> exists t :: Within(t, aStart, aEnd) && Within(t, bStart, bEnd)
  {
    if IntervalsOverlap(aStart, aEnd, bStart, bEnd) {
      var t := if aStart < bStart then bStart else aStart;
      assert Within(t, aStart, aEnd) && Within(t, bStart, bEnd);
    }
  }

  /** Whether `a` clashes with `b` does not depend on which one is asked about. */
  lemma OverlapIsSymmetric(aStart: int, aEnd: int, bStart: int, bEnd: int)
    ensures IntervalsOverlap(aStart, aEnd, bStart, bEnd) <==> IntervalsOverlap(bStart, bEnd, aStart, aEnd)
  {
  }

  /** A screening that ends exactly when the other starts does not clash with it, in either order. */
  lemma BackToBackDoNotOverlap(aStart: int, aEnd: int, bEnd: int)
    ensures !IntervalsOverlap(aStart, aEnd, aEnd, bEnd)
    ensures !IntervalsOverlap(aEnd, bEnd, aStart, aEnd)
  {
  }

  /** `startTime.date().eq(targetDate)`: the screening starts on the calendar day of `date`. */
  predicate StartsOnDayOf(s: ScreeningInfo, date: int)
  {
    DayOf(s.startTime) == DayOf(date)
  }

  /** `findByDateAndStatus(date, status)`: the day of `date` is the window `[midnight, next midnight)`. */
  function FindByDateAndStatus(rows: seq<ScreeningInfo>, date: int, status: ScreeningStatus): (r: seq<ScreeningInfo>)
    ensures SubsequenceOf(r, rows)
    ensures forall s :: s in r <==> s in rows && s.status == status
                                    && StartOfDay(DayOf(date)) <= s.startTime < StartOfDay(DayOf(date)) + MillisPerDay
  {
    var p := (s: ScreeningInfo) => StartsOnDayOf(s, date) && s.status == status;
    FilterIsSubsequence(rows, p);
    forall s | s in rows {
      DayOfWindow(s.startTime, DayOf(date));
    }
    Filter(rows, p)
  }

  /** `findByMovieIdAndDateAndStatus(movieId, date, status)`. */
  function FindByMovieIdAndDateAndStatus(rows: seq<ScreeningInfo>, movieId: nat, date: int, status: ScreeningStatus): (r: seq<ScreeningInfo>)
    ensures r == Filter(FindByDateAndStatus(rows, date, status), (s: ScreeningInfo) => s.movieId == movieId)
  {
    var p := (s: ScreeningInfo) => StartsOnDayOf(s, date) && s.status == status;
    var q := (s: ScreeningInfo) => s.movieId == movieId;
    var pq := (s: ScreeningInfo) => s.movieId == movieId && StartsOnDayOf(s, date) && s.status == status;
    FilterFilter(rows, p, q, pq);
    Filter(rows, pq)
  }

  /** `findByIdWithMovieAndScreen` / `findByIdWithScreeningSeats`: the row with this id, if any. */
  function FindById(rows: seq<ScreeningInfo>, id: nat): (r: Option<ScreeningInfo>)
    ensures r.Some? <==> exists s :: s in rows && s.id == id
    ensures r.Some? ==> r.value in rows && r.value.id == id
  {
    var k := IndexOfId(rows, id);
    if k < |rows| then Some(rows[k]) else None
  }

  /** The index of the first row with this id, or |rows| when there is none. */
  function IndexOfId(rows: seq<ScreeningInfo>, id: nat): (k: nat)
    ensures k <= |rows|
    ensures k < |rows| ==> rows[k].id == id
    ensures forall j :: 0 <= j < k ==> rows[j].id != id
  {
    if rows == [] then 0
    else if rows[0].id == id then 0
    else 1 + IndexOfId(rows[1..], id)
  }
}
