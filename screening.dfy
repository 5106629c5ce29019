/**
 * A screening of a movie on a screen (domain/screening/entity/Screening.java):
 * its status machine, when it may be booked, and the seat list it owns.
 */
module Screenings {
  import opened Common
  import opened SeatStatuses
  import opened ScreeningSeats

  datatype ScreeningStatus = SCHEDULED | NOW_SHOWING | ENDED | CANCELLED

  /** The screening columns that queries and services read. */
  datatype ScreeningInfo = ScreeningInfo(
    id: nat, movieId: nat, screenId: nat, startTime: int, endTime: int, status: ScreeningStatus)

  /** `isBookable`: still scheduled and starting strictly after `now`. */
  predicate IsBookable(s: ScreeningInfo, now: int)
  {
    s.status == SCHEDULED && s.startTime > now
  }

  /** The index of the first seat row with this seat id, or |seats| when there is none. */
  function FirstSeatIndex(seats: seq<SeatRecord>, seatId: nat): (k: nat)
    ensures k <= |seats|
    ensures k < |seats| ==> seats[k].SeatId() == seatId
    ensures forall j :: 0 <= j < k ==> seats[j].SeatId() != seatId
  {
    if seats == [] then 0
    else if seats[0].SeatId() == seatId then 0
    else 1 + FirstSeatIndex(seats[1..], seatId)
  }

  /** The number of rows in AVAILABLE. */
  function CountAvailable(seats: seq<SeatRecord>): (n: nat)
    ensures n <= |seats|
  {
    if seats == [] then 0
    else (if seats[0].status == AVAILABLE then 1 else 0) + CountAvailable(seats[1..])
  }

  lemma {:induction false} CountAvailableAppend(s: seq<SeatRecord>, t: seq<SeatRecord>)
    ensures CountAvailable(s + t) == CountAvailable(s) + CountAvailable(t)
    decreases |s|
  {
    if s != [] {
      assert (s + t)[0] == s[0] && (s + t)[1..] == s[1..] + t;
      CountAvailableAppend(s[1..], t);
    } else {
      assert s + t == t;
    }
  }

  /** The count reaches the seat count exactly when every seat is available. */
  lemma {:induction false} CountAvailableAll(seats: seq<SeatRecord>)
    ensures CountAvailable(seats) == |seats| <==> forall i :: 0 <= i < |seats| ==> seats[i].status == AVAILABLE
    decreases |seats|
  {
    if seats != [] {
      CountAvailableAll(seats[1..]);
      assert forall i :: 1 <= i < |seats| ==> seats[i] == seats[1..][i - 1];
    }
  }

  class Screening {
    var id: nat
    var movieId: nat
    var screenId: nat
    var startTime: int
    var endTime: int
    var status: ScreeningStatus
    var screeningSeats: seq<SeatRecord>

    function Info(): ScreeningInfo
      reads this
    {
      ScreeningInfo(id, movieId, screenId, startTime, endTime, status)
    }

    /** A new screening is SCHEDULED and owns no seats yet; `id` stands for the database key. */
    constructor (id: nat, movieId: nat, screenId: nat, startTime: int, endTime: int)
      ensures Info() == ScreeningInfo(id, movieId, screenId, startTime, endTime, SCHEDULED)
      ensures screeningSeats == []
    {
      this.id := id;
      this.movieId := movieId;
      this.screenId := screenId;
      this.startTime := startTime;
      this.endTime := endTime;
      this.status := SCHEDULED;
      this.screeningSeats := [];
    }

    /** SCHEDULED to NOW_SHOWING; from any other status `invalidState` (raised with SCREENING_ENDED). */
    method Start() returns (outcome: Outcome)
      modifies this
      ensures outcome.Pass? <==> old(status) == SCHEDULED
      ensures outcome.Fail? ==> outcome.error == SCREENING_ENDED
      ensures status == (if outcome.Pass? then NOW_SHOWING else old(status))
      ensures screeningSeats == old(screeningSeats) && Info().(status := old(status)) == old(Info())
    {
      if status != SCHEDULED {
        return Fail(SCREENING_ENDED);
      }
      status := NOW_SHOWING;
      outcome := Pass;
    }

    /** Ends the screening from any status. */
    method End()
      modifies this
      ensures status == ENDED
      ensures screeningSeats == old(screeningSeats) && Info().(status := old(status)) == old(Info())
    {
      status := ENDED;
    }

    /** Cancels from any status but ENDED, including an already cancelled screening. */
    method Cancel() returns (outcome: Outcome)
      modifies this
      ensures outcome.Fail? <==> old(status) == ENDED
      ensures outcome.Fail? ==> outcome.error == SCREENING_ENDED
      ensures status == (if outcome.Pass? then ScreeningStatus.CANCELLED else old(status))
      ensures screeningSeats == old(screeningSeats) && Info().(status := old(status)) == old(Info())
    {
      if status == ENDED {
        return Fail(SCREENING_ENDED);
      }
      status := ScreeningStatus.CANCELLED;
      outcome := Pass;
    }

    method AddScreeningSeat(seat: SeatRecord)
      modifies this
      ensures screeningSeats == old(screeningSeats) + [seat]
      ensures Info() == old(Info())
    {
      screeningSeats := screeningSeats + [seat];
    }

    /** The first owned seat row for `seatId`, or SEAT_NOT_FOUND when the screening has none. */
    method FindSeat(seatId: nat) returns (res: Result<SeatRecord>)
      ensures res.Err? <==> forall i :: 0 <= i < |screeningSeats| ==> screeningSeats[i].SeatId() != seatId
      ensures res.Err? ==> res.error == SEAT_NOT_FOUND
      ensures res.Ok? ==>
        exists k :: 0 <= k < |screeningSeats| && res.value == screeningSeats[k] && res.value.SeatId() == seatId
          && (forall j :: 0 <= j < k ==> screeningSeats[j].SeatId() != seatId)
    {
      var k := FirstSeatIndex(screeningSeats, seatId);
      if k == |screeningSeats| {
        return Err(SEAT_NOT_FOUND);
      }
      res := Ok(screeningSeats[k]);
    }

    predicate IsBookableAt(now: int)
      reads this
    {
      IsBookable(Info(), now)
    }

    /** SCREENING_NOT_BOOKABLE exactly when the screening is not bookable at `now`. */
    method ValidateBookable(now: int) returns (outcome: Outcome)
      ensures outcome.Pass? <==> status == SCHEDULED && startTime > now
      ensures outcome.Fail? ==> outcome.error == SCREENING_NOT_BOOKABLE
    {
      if !IsBookableAt(now) {
        return Fail(SCREENING_NOT_BOOKABLE);
      }
      outcome := Pass;
    }

    /** The number of owned seats that are AVAILABLE; never more than the seats owned. */
    method GetAvailableSeatCount() returns (n: nat)
      ensures n == CountAvailable(screeningSeats) && n <= |screeningSeats|
    {
      n := CountAvailable(screeningSeats);
    }
  }
}
